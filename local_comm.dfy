/**
  The in-process mock communicator `LocalComm`. All ranks of a simulated run
  live in one process and are called one after another; they share one buffer
  dictionary through which broadcast and scatter logs, gather slots,
  point-to-point message queues and the `Split` registry pass.

  Python objects handed to the communicator are modelled as `Value<T>`; a stored
  value is immutable, so the `copy.deepcopy` calls of the Python code are not modelled,
  and "assigning into a receive buffer" is modelled as returning the value.
  Exceptions are the `Err` case of a `Result`.
*/
module LocalComm {
  import opened Wrappers

  // ---------------------------------------------------------------------------
  // Values, keys and errors

  /** A Python value passed through the communicator: None, a scalar, or an array indexed along its first axis. */
  datatype Value<T> = Null | Scalar(item: T) | Array(elems: seq<Value<T>>)

  /** The two logs kept by `_get_buffer`, under the dictionary keys "bcast" and "scatter". */
  datatype BufferType = BcastLog | ScatterLog

  /** The key (from_rank, to_rank, tag) of one point-to-point queue. */
  datatype Key = Key(from: int, to: int, tag: int)

  /** Why a rank cannot proceed: it waits on a call another rank has not made yet. */
  datatype Concurrency =
    | RecvBeforeAnySend
    | RecvBeforeSendFrom(from: int, to: int)
    | GatherBeforeRanks(ranks: seq<nat>)

  /** Why an operation is not implemented by the mock. */
  datatype Why = RootMustBeSource | InherentParallelism | RequiresSynchronicity

  /** The exceptions the communicator raises. */
  datatype Error =
    | ConcurrencyError(reason: Concurrency)
    | NotImplementedError(why: Why)
    | IndexError
    | TypeError

  // ---------------------------------------------------------------------------
  // The indexed logs behind bcast and Scatter (`_get_buffer`)

  /** `self._i_buffer.get(buffer_type, 0)`: how many calls of this type the comm has made. */
  function Cursor(cursors: map<BufferType, nat>, bt: BufferType): nat {
    if bt in cursors then cursors[bt] else 0
  }

  /** The log of one buffer type; a missing dictionary entry reads as a new empty list. */
  function LogOf<T>(logs: map<BufferType, seq<Value<T>>>, bt: BufferType): seq<Value<T>> {
    if bt in logs then logs[bt] else []
  }

  /** The log after a call by `rank` with `value`: only rank 0 appends. */
  function Appended<T>(log: seq<Value<T>>, rank: nat, value: Value<T>): (log': seq<Value<T>>)
    ensures rank == 0 ==> log' == log + [value]
    ensures rank != 0 ==> log' == log
  {
    if rank == 0 then log + [value] else log
  }

  /** `log[i]`, which raises IndexError past the end. */
  function At<T>(log: seq<Value<T>>, i: nat): (r: Result<Value<T>, Error>)
    ensures r.Ok? <==> i < |log|
    ensures r.Ok? ==> r.value == log[i]
    ensures r.Err? ==> r.error == IndexError
  {
    if i < |log| then Ok(log[i]) else Err(IndexError)
  }

  /** `sendbuf[self.rank]` in Scatter: TypeError unless the value is an array, IndexError past its end. */
  function Element<T>(v: Value<T>, rank: nat): (r: Result<Value<T>, Error>)
    ensures r.Ok? <==> v.Array? && rank < |v.elems|
    ensures r.Ok? ==> r.value == v.elems[rank]
    ensures !v.Array? ==> r == Err(TypeError)
    ensures v.Array? && rank >= |v.elems| ==> r == Err(IndexError)
  {
    match v
    case Array(elems) => if rank < |elems| then Ok(elems[rank]) else Err(IndexError)
    case _ => Err(TypeError)
  }

  // ---------------------------------------------------------------------------
  // The point-to-point queues (`_put_send_recv`, `_get_send_recv`)

  /** The "send_recv" entry of the buffer dictionary: absent until the first send. */
  type Table<T> = Option<map<Key, seq<Value<T>>>>

  /** The queue under `key`; a missing table or key reads as empty. */
  function QueueOf<T>(table: Table<T>, key: Key): seq<Value<T>> {
    if table.Some? && key in table.value then table.value[key] else []
  }

  /** `_put_send_recv`: create the table and the key as needed, then append. */
  function Put<T>(table: Table<T>, key: Key, v: Value<T>): (t: map<Key, seq<Value<T>>>)
    ensures key in t && t[key] == QueueOf(table, key) + [v]
    ensures forall k :: k != key ==> (k in t <==> table.Some? && k in table.value)
    ensures forall k :: k != key && k in t ==> t[k] == table.value[k]
  {
    var m := if table.Some? then table.value else map[];
    m[key := QueueOf(table, key) + [v]]
  }

  /** A message taken from a queue, and the table left behind. */
  datatype Taken<T> = Taken(value: Value<T>, rest: map<Key, seq<Value<T>>>)

  /** `_get_send_recv`: `pop(0)` on the queue under `key`, or the exception raised instead. */
  function Take<T>(table: Table<T>, key: Key): (r: Result<Taken<T>, Error>)
    ensures table.None? ==> r == Err(ConcurrencyError(RecvBeforeAnySend))
    ensures table.Some? && key !in table.value ==> r == Err(ConcurrencyError(RecvBeforeSendFrom(key.from, key.to)))
    ensures table.Some? && key in table.value && table.value[key] == [] ==> r == Err(IndexError)
    ensures r.Ok? <==> QueueOf(table, key) != []
    ensures r.Ok? ==> r.value.value == QueueOf(table, key)[0]
                      && r.value.rest == table.value[key := QueueOf(table, key)[1..]]
  {
    if table.None? then Err(ConcurrencyError(RecvBeforeAnySend))
    else if key !in table.value then Err(ConcurrencyError(RecvBeforeSendFrom(key.from, key.to)))
    else if table.value[key] == [] then Err(IndexError)
    else Ok(Taken(table.value[key][0], table.value[key := table.value[key][1..]]))
  }

  /** A send onto a non-empty queue commutes with the receive that takes the queue's head. */
  lemma PutTakeCommute<T>(table: Table<T>, key: Key, v: Value<T>)
    requires QueueOf(table, key) != []
    ensures Take(Some(Put(table, key, v)), key).Ok?
    ensures Take(Some(Put(table, key, v)), key).value.value == Take(table, key).value.value
    ensures Take(Some(Put(table, key, v)), key).value.rest == Put(Some(Take(table, key).value.rest), key, v)
  {
    var q := QueueOf(table, key);
    assert (q + [v])[1..] == q[1..] + [v];
  }

  /** A send onto the empty queue is taken by the next receive, leaving the queue empty again. */
  lemma PutTakeEmpty<T>(table: Table<T>, key: Key, v: Value<T>)
    requires QueueOf(table, key) == []
    ensures Take(Some(Put(table, key, v)), key) == Ok(Taken(v, Put(table, key, v)[key := []]))
  {
    var t := Put(table, key, v);
    assert QueueOf(table, key) + [v] == [v];
    assert t[key][1..] == [];
  }

  // ---------------------------------------------------------------------------
  // The gather slot table

  /** The indices of the slots still holding None, in increasing order. */
  function Uncalled<T>(slots: seq<Value<T>>): (ranks: seq<nat>)
    ensures forall i :: i in ranks <==> 0 <= i < |slots| && slots[i].Null?
    ensures forall m, n :: 0 <= m < n < |ranks| ==> ranks[m] < ranks[n]
    decreases |slots|
  {
    if slots == [] then []
    else
      var last := |slots| - 1;
      var init := Uncalled(slots[..last]);
      assert forall i :: i in init ==> 0 <= i < last && slots[i].Null?;
      assert forall m :: 0 <= m < |init| ==> init[m] in init;
      if slots[last].Null? then init + [last] else init
  }

  /** `[None for i in range(total_ranks)]`: the slot table a first Gather creates. */
  function EmptySlots<T>(totalRanks: nat): (slots: seq<Value<T>>)
    ensures |slots| == totalRanks && forall i :: 0 <= i < totalRanks ==> slots[i] == Null
  {
    seq(totalRanks, _ => Null)
  }

  /** The slot table as Gather finds it: the stored one, or a new one sized by the calling comm. */
  function SlotsOf<T>(gather: Option<seq<Value<T>>>, totalRanks: nat): seq<Value<T>> {
    if gather.Some? then gather.value else EmptySlots(totalRanks)
  }

  /** The slot table after `rank` deposits `sendbuf`; a rank past the end changes nothing. */
  function Deposited<T>(gather: Option<seq<Value<T>>>, rank: nat, totalRanks: nat, sendbuf: Value<T>): (slots: seq<Value<T>>)
    ensures |slots| == |SlotsOf(gather, totalRanks)|
    ensures forall i :: 0 <= i < |slots| ==> slots[i] == if i == rank then sendbuf else SlotsOf(gather, totalRanks)[i]
  {
    var slots := SlotsOf(gather, totalRanks);
    if rank < |slots| then slots[rank := sendbuf] else slots
  }

  /** The slot table after a Gather call and what the call returns: the slots on the root, None elsewhere. */
  datatype GatherStep<T> = GatherStep(slots: seq<Value<T>>, result: Result<Option<seq<Value<T>>>, Error>)

  /** One Gather call by `rank` with `sendbuf`, on the table `gather`. */
  function Gathered<T>(gather: Option<seq<Value<T>>>, rank: nat, totalRanks: nat, root: int, sendbuf: Value<T>): (g: GatherStep<T>)
    ensures g.slots == Deposited(gather, rank, totalRanks, sendbuf)
    ensures rank >= |g.slots| ==> g.result == Err(IndexError)
    ensures rank < |g.slots| && rank != root ==> g.result == Ok(None)
    ensures rank < |g.slots| && rank == root ==>
              && (g.result.Ok? <==> forall i :: 0 <= i < |g.slots| ==> !g.slots[i].Null?)
              && (g.result.Ok? ==> g.result.value == Some(g.slots))
              && (g.result.Err? ==> g.result.error == ConcurrencyError(GatherBeforeRanks(Uncalled(g.slots))))
  {
    var slots := SlotsOf(gather, totalRanks);
    if rank >= |slots| then GatherStep(slots, Err(IndexError))
    else
      var slots' := slots[rank := sendbuf];
      if rank != root then GatherStep(slots', Ok(None))
      else if exists i :: 0 <= i < |slots'| && slots'[i].Null? then GatherStep(slots', Err(ConcurrencyError(GatherBeforeRanks(Uncalled(slots')))))
      else GatherStep(slots', Ok(Some(slots')))
  }

  // ---------------------------------------------------------------------------
  // The shared buffer dictionary and the comms

  /** The buffer dictionary shared by the comms of one (possibly split) communicator. */
  class Buffer<T> {
    /** The "bcast" and "scatter" entries. */
    var logs: map<BufferType, seq<Value<T>>>
    /** The "send_recv" entry. */
    var sendRecv: Table<T>
    /** The "gather" entry. */
    var gather: Option<seq<Value<T>>>
    /** The "split_comms" entry: the comms created so far, per color. */
    var splitComms: map<int, seq<LocalComm<T>>>
    /** The "split_buffers" entry: the buffer dictionary each color shares. */
    var splitBuffers: map<int, Buffer<T>>

    constructor ()
      ensures logs == map[] && sendRecv == None && gather == None
      ensures splitComms == map[] && splitBuffers == map[]
    {
      logs := map[];
      sendRecv := None;
      gather := None;
      splitComms := map[];
      splitBuffers := map[];
    }

    /** The comms split off with `color` so far, in creation order. */
    function Registry(color: int): seq<LocalComm<T>>
      reads this
    {
      if color in splitComms then splitComms[color] else []
    }

    /** Every comm of `color` has its position as rank, knows how many there are, and shares the color's buffer. */
    ghost predicate SplitConsistent(color: int)
      reads this, set c | c in Registry(color)
    {
      && (Registry(color) != [] ==> color in splitBuffers)
      && forall m :: 0 <= m < |Registry(color)| ==>
           && Registry(color)[m].rank == m
           && Registry(color)[m].totalRanks == |Registry(color)|
           && Registry(color)[m].buffer == splitBuffers[color]
    }
  }

  /** A request returned by Isend or Irecv; `Wait` completes it. */
  datatype Request<T> = SendDone | PendingRecv(comm: LocalComm<T>, source: int, tag: int)

  /** One rank's handle on the shared buffer dictionary. */
  class LocalComm<T> {
    const rank: nat
    var totalRanks: nat
    const buffer: Buffer<T>
    /** `_i_buffer`: how many bcast and scatter calls this comm has made. */
    var iBuffer: map<BufferType, nat>

    constructor (rank: nat, totalRanks: nat, buffer: Buffer<T>)
      ensures this.rank == rank && this.totalRanks == totalRanks && this.buffer == buffer
      ensures iBuffer == map[]
    {
      this.rank := rank;
      this.totalRanks := totalRanks;
      this.buffer := buffer;
      iBuffer := map[];
    }

    /** `Get_rank`. */
    function GetRank(): nat {
      rank
    }

    /** `Get_size`. */
    function GetSize(): nat
      reads this
    {
      totalRanks
    }

    /** `_get_buffer`: bump this comm's cursor, let rank 0 append its value, and read the log at the old cursor. */
    method GetBuffer(bt: BufferType, value: Value<T>) returns (r: Result<Value<T>, Error>)
      modifies this`iBuffer, buffer`logs
      ensures iBuffer == old(iBuffer)[bt := Cursor(old(iBuffer), bt) + 1]
      ensures buffer.logs == old(buffer.logs)[bt := Appended(LogOf(old(buffer.logs), bt), rank, value)]
      ensures r == At(buffer.logs[bt], Cursor(old(iBuffer), bt))
    {
      var i := Cursor(iBuffer, bt);
      iBuffer := iBuffer[bt := i + 1];
      if bt !in buffer.logs {
        buffer.logs := buffer.logs[bt := []];
      }
      if rank == 0 {
        buffer.logs := buffer.logs[bt := buffer.logs[bt] + [value]];
      }
      r := At(buffer.logs[bt], i);
    }

    /** `bcast`: only root 0 is supported, and the refusal touches no state. */
    method Bcast(value: Value<T>, root: int) returns (r: Result<Value<T>, Error>)
      modifies this`iBuffer, buffer`logs
      ensures root != 0 ==> r == Err(NotImplementedError(RootMustBeSource))
                            && iBuffer == old(iBuffer) && buffer.logs == old(buffer.logs)
      ensures root == 0 ==> iBuffer == old(iBuffer)[BcastLog := Cursor(old(iBuffer), BcastLog) + 1]
                            && buffer.logs == old(buffer.logs)[BcastLog := Appended(LogOf(old(buffer.logs), BcastLog), rank, value)]
                            && r == At(buffer.logs[BcastLog], Cursor(old(iBuffer), BcastLog))
    {
      if root != 0 {
        return Err(NotImplementedError(RootMustBeSource));
      }
      r := GetBuffer(BcastLog, value);
    }

    /** `Scatter`: rank r receives element r of the value rank 0 scattered in the same call. */
    method Scatter(sendbuf: Value<T>, root: int) returns (r: Result<Value<T>, Error>)
      modifies this`iBuffer, buffer`logs
      ensures root != 0 ==> r == Err(NotImplementedError(RootMustBeSource))
                            && iBuffer == old(iBuffer) && buffer.logs == old(buffer.logs)
      ensures root == 0 ==> iBuffer == old(iBuffer)[ScatterLog := Cursor(old(iBuffer), ScatterLog) + 1]
                            && buffer.logs == old(buffer.logs)[ScatterLog := Appended(LogOf(old(buffer.logs), ScatterLog), rank, sendbuf)]
                            && r == ScatterResult(At(buffer.logs[ScatterLog], Cursor(old(iBuffer), ScatterLog)), rank)
    {
      if root != 0 {
        return Err(NotImplementedError(RootMustBeSource));
      }
      var got := GetBuffer(ScatterLog, sendbuf);
      r := ScatterResult(got, rank);
    }

    /** `Gather`: fill this rank's slot; on the root, return every slot or name the ranks still missing. */
    method Gather(sendbuf: Value<T>, root: int) returns (r: Result<Option<seq<Value<T>>>, Error>)
      modifies buffer`gather
      ensures buffer.gather == Some(Gathered(old(buffer.gather), rank, totalRanks, root, sendbuf).slots)
      ensures r == Gathered(old(buffer.gather), rank, totalRanks, root, sendbuf).result
    {
      if buffer.gather.None? {
        buffer.gather := Some(EmptySlots(totalRanks));
      }
      var slots := buffer.gather.value;
      if rank >= |slots| {
        return Err(IndexError);
      }
      slots := slots[rank := sendbuf];
      buffer.gather := Some(slots);
      if rank == root {
        if exists i :: 0 <= i < |slots| && slots[i].Null? {
          return Err(ConcurrencyError(GatherBeforeRanks(Uncalled(slots))));
        }
        return Ok(Some(slots));
      }
      r := Ok(None);
    }

    /** `Send`: append to the queue (self.rank, dest, tag). */
    method Send(sendbuf: Value<T>, dest: int, tag: int)
      modifies buffer`sendRecv
      ensures buffer.sendRecv == Some(Put(old(buffer.sendRecv), Key(rank, dest, tag), sendbuf))
    {
      buffer.sendRecv := Some(Put(buffer.sendRecv, Key(rank, dest, tag), sendbuf));
    }

    /** `Isend`: the message is enqueued at once; waiting on the request does nothing more. */
    method Isend(sendbuf: Value<T>, dest: int, tag: int) returns (req: Request<T>)
      modifies buffer`sendRecv
      ensures buffer.sendRecv == Some(Put(old(buffer.sendRecv), Key(rank, dest, tag), sendbuf))
      ensures req == SendDone
    {
      Send(sendbuf, dest, tag);
      req := SendDone;
    }

    /** `Recv`: take the oldest message `source` sent to this rank with `tag`. */
    method Recv(source: int, tag: int) returns (r: Result<Value<T>, Error>)
      modifies buffer`sendRecv
      ensures var t := Take(old(buffer.sendRecv), Key(source, rank, tag));
              && (t.Ok? ==> r == Ok(t.value.value) && buffer.sendRecv == Some(t.value.rest))
              && (t.Err? ==> r == Err(t.error) && buffer.sendRecv == old(buffer.sendRecv))
    {
      var t := Take(buffer.sendRecv, Key(source, rank, tag));
      if t.Err? {
        return Err(t.error);
      }
      buffer.sendRecv := Some(t.value.rest);
      r := Ok(t.value.value);
    }

    /** `Irecv`: nothing is received until the request is waited on. */
    method Irecv(source: int, tag: int) returns (req: Request<T>)
      ensures req == PendingRecv(this, source, tag)
    {
      req := PendingRecv(this, source, tag);
    }

    /** `Split`: hand out ranks in call order; every comm of the color learns the new size. The key is ignored. */
    method Split(color: int, key: int) returns (r: LocalComm<T>)
      modifies buffer`splitComms, buffer`splitBuffers, (set c | c in buffer.Registry(color))`totalRanks
      ensures fresh(r) && r.iBuffer == map[]
      ensures r.rank == |old(buffer.Registry(color))| && r.totalRanks == r.rank + 1
      ensures buffer.splitComms == old(buffer.splitComms)[color := old(buffer.Registry(color)) + [r]]
      ensures color in old(buffer.splitBuffers) ==> buffer.splitBuffers == old(buffer.splitBuffers)
      ensures color !in old(buffer.splitBuffers) ==>
                && buffer.splitBuffers == old(buffer.splitBuffers)[color := r.buffer]
                && fresh(r.buffer) && r.buffer.logs == map[] && r.buffer.sendRecv == None && r.buffer.gather == None
                && r.buffer.splitComms == map[] && r.buffer.splitBuffers == map[]
      ensures r.buffer == buffer.splitBuffers[color]
      ensures forall c :: c in buffer.Registry(color) ==> c.totalRanks == |buffer.Registry(color)|
      ensures old(buffer.SplitConsistent(color)) ==> buffer.SplitConsistent(color)
    {
      var comms := buffer.Registry(color);
      buffer.splitComms := buffer.splitComms[color := comms];
      if color !in buffer.splitBuffers {
        var colorBuffer := new Buffer<T>();
        buffer.splitBuffers := buffer.splitBuffers[color := colorBuffer];
      }
      var newRank := |comms|;
      var total := newRank + 1;
      r := new LocalComm(newRank, total, buffer.splitBuffers[color]);
      var i := 0;
      while i < |comms|
        invariant 0 <= i <= |comms|
        invariant buffer.splitComms == old(buffer.splitComms)[color := comms]
        invariant color in buffer.splitBuffers && r.buffer == buffer.splitBuffers[color]
        invariant color in old(buffer.splitBuffers) ==> buffer.splitBuffers == old(buffer.splitBuffers)
        invariant color !in old(buffer.splitBuffers) ==>
                    && buffer.splitBuffers == old(buffer.splitBuffers)[color := r.buffer]
                    && fresh(r.buffer) && r.buffer.logs == map[] && r.buffer.sendRecv == None && r.buffer.gather == None
                    && r.buffer.splitComms == map[] && r.buffer.splitBuffers == map[]
        invariant r.rank == newRank && r.totalRanks == total && r.iBuffer == map[]
        invariant forall m :: 0 <= m < i ==> comms[m].totalRanks == total
      {
        comms[i].totalRanks := total;
        i := i + 1;
      }
      buffer.splitComms := buffer.splitComms[color := comms + [r]];
    }
  }

  /** Scatter's last step on the value read from the log. */
  function ScatterResult<T>(got: Result<Value<T>, Error>, rank: nat): (r: Result<Value<T>, Error>)
    ensures got.Err? ==> r == got
    ensures got.Ok? ==> r == Element(got.value, rank)
  {
    match got
    case Err(e) => Err(e)
    case Ok(v) => Element(v, rank)
  }

  /** `AsyncResult.wait`: a pending receive performs its Recv now; a send request has nothing left to do. */
  method Wait<T>(req: Request<T>) returns (r: Result<Option<Value<T>>, Error>)
    modifies (if req.PendingRecv? then {req.comm.buffer} else {})`sendRecv
    ensures req.SendDone? ==> r == Ok(None)
    ensures req.PendingRecv? ==>
              var t := Take(old(req.comm.buffer.sendRecv), Key(req.source, req.comm.rank, req.tag));
              && (t.Ok? ==> r == Ok(Some(t.value.value)) && req.comm.buffer.sendRecv == Some(t.value.rest))
              && (t.Err? ==> r == Err(t.error) && req.comm.buffer.sendRecv == old(req.comm.buffer.sendRecv))
  {
    match req
    case SendDone =>
      r := Ok(None);
    case PendingRecv(comm, source, tag) =>
      var got := comm.Recv(source, tag);
      r := if got.Ok? then Ok(Some(got.value)) else Err(got.error);
  }

  // ---------------------------------------------------------------------------
  // Replays: the ranks' calls in the sequential order the mock relies on

  /** One `_get_buffer` call of a single buffer type, by the comm of `rank`, passing `value`. */
  datatype BufferCall<T> = BufferCall(rank: nat, value: Value<T>)

  /** The shared log of one buffer type and each rank's cursor for it. */
  datatype LogState<T> = LogState(log: seq<Value<T>>, cursors: map<nat, nat>)

  function RankCursor(cursors: map<nat, nat>, rank: nat): nat {
    if rank in cursors then cursors[rank] else 0
  }

  /** The log and cursors after the calls, one comm per rank, from a fresh dictionary and fresh comms. */
  function LogAfter<T>(calls: seq<BufferCall<T>>): LogState<T>
    decreases |calls|
  {
    if calls == [] then LogState([], map[])
    else
      var s := LogAfter(calls[..|calls| - 1]);
      var call := calls[|calls| - 1];
      LogState(Appended(s.log, call.rank, call.value), s.cursors[call.rank := RankCursor(s.cursors, call.rank) + 1])
  }

  /** What call m returns: `GetBuffer` on the state the earlier calls left. */
  function CallResult<T>(calls: seq<BufferCall<T>>, m: nat): Result<Value<T>, Error>
    requires m < |calls|
  {
    var s := LogAfter(calls[..m]);
    At(Appended(s.log, calls[m].rank, calls[m].value), RankCursor(s.cursors, calls[m].rank))
  }

  /** The values rank 0 passed, in call order. */
  function RootValues<T>(calls: seq<BufferCall<T>>): seq<Value<T>> {
    if calls == [] then []
    else (if calls[0].rank == 0 then [calls[0].value] else []) + RootValues(calls[1..])
  }

  /** How many of the calls `rank` made. */
  function CallsBy<T>(calls: seq<BufferCall<T>>, rank: nat): nat {
    if calls == [] then 0
    else (if calls[0].rank == rank then 1 else 0) + CallsBy(calls[1..], rank)
  }

  lemma {:induction false} RootValuesAppend<T>(a: seq<BufferCall<T>>, b: seq<BufferCall<T>>)
    ensures RootValues(a + b) == RootValues(a) + RootValues(b)
  {
    if a == [] {
      assert a + b == b;
    } else {
      assert (a + b)[0] == a[0] && (a + b)[1..] == a[1..] + b;
      RootValuesAppend(a[1..], b);
    }
  }

  lemma {:induction false} CallsByAppend<T>(a: seq<BufferCall<T>>, b: seq<BufferCall<T>>, rank: nat)
    ensures CallsBy(a + b, rank) == CallsBy(a, rank) + CallsBy(b, rank)
  {
    if a == [] {
      assert a + b == b;
    } else {
      assert (a + b)[0] == a[0] && (a + b)[1..] == a[1..] + b;
      CallsByAppend(a[1..], b, rank);
    }
  }

  lemma {:induction false} RootCallsCounted<T>(calls: seq<BufferCall<T>>)
    ensures |RootValues(calls)| == CallsBy(calls, 0)
  {
    if calls != [] {
      RootCallsCounted(calls[1..]);
    }
  }

  /** The shared log holds exactly rank 0's values, and each rank's cursor counts that rank's calls. */
  lemma {:induction false} LogIsRootValues<T>(calls: seq<BufferCall<T>>)
    ensures LogAfter(calls).log == RootValues(calls)
    ensures forall rank: nat :: RankCursor(LogAfter(calls).cursors, rank) == CallsBy(calls, rank)
    decreases |calls|
  {
    if calls != [] {
      var init := calls[..|calls| - 1];
      var last := calls[|calls| - 1];
      assert calls == init + [last];
      LogIsRootValues(init);
      RootValuesAppend(init, [last]);
      forall rank: nat
        ensures RankCursor(LogAfter(calls).cursors, rank) == CallsBy(calls, rank)
      {
        CallsByAppend(init, [last], rank);
      }
    }
  }

  /**
    The n-th call on any rank returns the value rank 0 passed to its n-th call,
    or raises IndexError when rank 0 has not made that call yet.
  */
  lemma BufferReplay<T>(calls: seq<BufferCall<T>>, m: nat)
    requires m < |calls|
    ensures var n := CallsBy(calls[..m], calls[m].rank);
            var roots := RootValues(calls[..m + 1]);
            CallResult(calls, m) == if n < |roots| then Ok(roots[n]) else Err(IndexError)
  {
    LogIsRootValues(calls[..m]);
    assert calls[..m + 1] == calls[..m] + [calls[m]];
    RootValuesAppend(calls[..m], [calls[m]]);
  }

  /** A bcast on rank 0 returns the value it passed itself. */
  lemma RootReadsOwnValue<T>(calls: seq<BufferCall<T>>, m: nat)
    requires m < |calls| && calls[m].rank == 0
    ensures CallResult(calls, m) == Ok(calls[m].value)
  {
    BufferReplay(calls, m);
    RootCallsCounted(calls[..m]);
    assert calls[..m + 1] == calls[..m] + [calls[m]];
    RootValuesAppend(calls[..m], [calls[m]]);
  }

  /** The m-th Scatter call returns element `rank` of what rank 0 scattered in its call with the same index. */
  lemma ScatterReplay<T>(calls: seq<BufferCall<T>>, m: nat)
    requires m < |calls|
    ensures var n := CallsBy(calls[..m], calls[m].rank);
            var roots := RootValues(calls[..m + 1]);
            ScatterResult(CallResult(calls, m), calls[m].rank)
              == if n < |roots| then Element(roots[n], calls[m].rank) else Err(IndexError)
  {
    BufferReplay(calls, m);
  }

  /** One point-to-point operation: Send by `sender`, or Recv on `receiver`. */
  datatype P2POp<T> =
    | SendOp(sender: nat, dest: int, tag: int, value: Value<T>)
    | RecvOp(receiver: nat, source: int, tag: int)

  /** The queue an operation appends to or takes from. */
  function OpKey<T>(op: P2POp<T>): Key {
    match op
    case SendOp(sender, dest, tag, _) => Key(sender, dest, tag)
    case RecvOp(receiver, source, tag) => Key(source, receiver, tag)
  }

  /** The table after one operation, and what the operation returns (the received value for a Recv). */
  datatype P2PStep<T> = P2PStep(table: Table<T>, result: Result<Option<Value<T>>, Error>)

  function ApplyOp<T>(table: Table<T>, op: P2POp<T>): P2PStep<T> {
    match op
    case SendOp(_, _, _, v) => P2PStep(Some(Put(table, OpKey(op), v)), Ok(None))
    case RecvOp(_, _, _) =>
      var t := Take(table, OpKey(op));
      if t.Ok? then P2PStep(Some(t.value.rest), Ok(Some(t.value.value))) else P2PStep(table, Err(t.error))
  }

  function TableAfter<T>(ops: seq<P2POp<T>>): Table<T>
    decreases |ops|
  {
    if ops == [] then None else ApplyOp(TableAfter(ops[..|ops| - 1]), ops[|ops| - 1]).table
  }

  function OpResult<T>(ops: seq<P2POp<T>>, m: nat): Result<Option<Value<T>>, Error>
    requires m < |ops|
  {
    ApplyOp(TableAfter(ops[..m]), ops[m]).result
  }

  /** The values sent on `key`, in order. */
  function Sent<T>(ops: seq<P2POp<T>>, key: Key): seq<Value<T>>
    decreases |ops|
  {
    if ops == [] then []
    else
      var op := ops[|ops| - 1];
      Sent(ops[..|ops| - 1], key) + if op.SendOp? && OpKey(op) == key then [op.value] else []
  }

  /** The values received on `key` by the receives that succeeded, in order. */
  function Delivered<T>(ops: seq<P2POp<T>>, key: Key): seq<Value<T>>
    decreases |ops|
  {
    if ops == [] then []
    else
      var op := ops[|ops| - 1];
      var r := OpResult(ops, |ops| - 1);
      Delivered(ops[..|ops| - 1], key)
        + if op.RecvOp? && OpKey(op) == key && r.Ok? && r.value.Some? then [r.value.value] else []
  }

  predicate NoSends<T>(ops: seq<P2POp<T>>) {
    forall i :: 0 <= i < |ops| ==> ops[i].RecvOp?
  }

  predicate HasQueue<T>(table: Table<T>, key: Key) {
    table.Some? && key in table.value
  }

  /** How one operation changes the queue under `key`, the table's existence and the key's existence. */
  lemma StepQueue<T>(table: Table<T>, op: P2POp<T>, key: Key)
    ensures var s := ApplyOp(table, op);
            && (op.SendOp? && OpKey(op) == key ==> QueueOf(s.table, key) == QueueOf(table, key) + [op.value])
            && (op.RecvOp? && OpKey(op) == key && s.result.Ok? ==>
                  QueueOf(table, key) != [] && s.result.value == Some(QueueOf(table, key)[0])
                  && QueueOf(s.table, key) == QueueOf(table, key)[1..])
            && (op.RecvOp? && s.result.Ok? ==> s.result.value.Some?)
            && (OpKey(op) != key || (op.RecvOp? && s.result.Err?) ==> QueueOf(s.table, key) == QueueOf(table, key))
            && (s.table.None? <==> table.None? && op.RecvOp?)
            && (HasQueue(s.table, key) <==> HasQueue(table, key) || (op.SendOp? && OpKey(op) == key))
  {
  }

  /** The table exists exactly once something was sent. */
  lemma {:induction false} TableExists<T>(ops: seq<P2POp<T>>)
    ensures TableAfter(ops).None? <==> NoSends(ops)
    decreases |ops|
  {
    if ops != [] {
      var init := ops[..|ops| - 1];
      var op := ops[|ops| - 1];
      TableExists(init);
      StepQueue(TableAfter(init), op, OpKey(op));
      assert forall i :: 0 <= i < |init| ==> init[i] == ops[i];
    }
  }

  /** The queue under `key` exists exactly once something was sent on it; receiving never removes it. */
  lemma {:induction false} QueueExists<T>(ops: seq<P2POp<T>>, key: Key)
    ensures HasQueue(TableAfter(ops), key) <==> Sent(ops, key) != []
    decreases |ops|
  {
    if ops != [] {
      var init := ops[..|ops| - 1];
      QueueExists(init, key);
      StepQueue(TableAfter(init), ops[|ops| - 1], key);
    }
  }

  /** A successful receive on `key` moves the head of its queue to the delivered values. */
  lemma DeliverHead<T>(d: seq<Value<T>>, q: seq<Value<T>>, s: seq<Value<T>>)
    requires d + q == s && q != []
    ensures (d + [q[0]]) + q[1..] == s
  {
    assert q == [q[0]] + q[1..];
    assert (d + [q[0]]) + q[1..] == d + ([q[0]] + q[1..]);
  }

  /**
    Every queue is FIFO: the values received on a key followed by the values still
    queued are exactly the values sent on it.
  */
  lemma {:induction false} FifoQueues<T>(ops: seq<P2POp<T>>, key: Key)
    ensures Delivered(ops, key) + QueueOf(TableAfter(ops), key) == Sent(ops, key)
    decreases |ops|
  {
    if ops != [] {
      var init := ops[..|ops| - 1];
      var op := ops[|ops| - 1];
      FifoQueues(init, key);
      StepQueue(TableAfter(init), op, key);
      var d, q := Delivered(init, key), QueueOf(TableAfter(init), key);
      if op.RecvOp? && OpKey(op) == key && OpResult(ops, |ops| - 1).Ok? {
        DeliverHead(d, q, Sent(init, key));
      } else if op.SendOp? && OpKey(op) == key {
        assert (d + q) + [op.value] == d + (q + [op.value]);
      }
    }
  }

  /**
    A Recv returns the oldest message not yet received on its key; with none
    queued it raises ConcurrencyError if nothing was ever sent at all or on that
    key, and IndexError if everything sent on the key was received already.
  */
  lemma RecvReplay<T>(ops: seq<P2POp<T>>, m: nat)
    requires m < |ops| && ops[m].RecvOp?
    ensures var before := ops[..m];
            var key := OpKey(ops[m]);
            OpResult(ops, m) ==
              if NoSends(before) then Err(ConcurrencyError(RecvBeforeAnySend))
              else if Sent(before, key) == [] then Err(ConcurrencyError(RecvBeforeSendFrom(key.from, key.to)))
              else if |Delivered(before, key)| >= |Sent(before, key)| then Err(IndexError)
              else Ok(Some(Sent(before, key)[|Delivered(before, key)|]))
  {
    var before := ops[..m];
    var key := OpKey(ops[m]);
    TableExists(before);
    QueueExists(before, key);
    FifoQueues(before, key);
    var d, q := Delivered(before, key), QueueOf(TableAfter(before), key);
    if q != [] {
      assert (d + q)[|d|] == q[0];
    }
  }

  /** One Gather call by the comm of `rank`. */
  datatype GatherCall<T> = GatherCall(rank: nat, sendbuf: Value<T>)

  /** The gather table after the calls, all comms having `totalRanks` ranks. */
  function SlotsAfter<T>(calls: seq<GatherCall<T>>, totalRanks: nat): Option<seq<Value<T>>>
    decreases |calls|
  {
    if calls == [] then None
    else
      var call := calls[|calls| - 1];
      Some(Deposited(SlotsAfter(calls[..|calls| - 1], totalRanks), call.rank, totalRanks, call.sendbuf))
  }

  /** The value `rank` passed to its latest Gather call, or None if it made none. */
  function LastSent<T>(calls: seq<GatherCall<T>>, rank: nat): Value<T>
    decreases |calls|
  {
    if calls == [] then Null
    else if calls[|calls| - 1].rank == rank then calls[|calls| - 1].sendbuf
    else LastSent(calls[..|calls| - 1], rank)
  }

  /** Slot i holds what rank i passed last; slots are never cleared between gathers. */
  lemma {:induction false} SlotsAreLastSent<T>(calls: seq<GatherCall<T>>, totalRanks: nat)
    ensures |SlotsOf(SlotsAfter(calls, totalRanks), totalRanks)| == totalRanks
    ensures forall i :: 0 <= i < totalRanks ==> SlotsOf(SlotsAfter(calls, totalRanks), totalRanks)[i] == LastSent(calls, i)
    decreases |calls|
  {
    if calls != [] {
      SlotsAreLastSent(calls[..|calls| - 1], totalRanks);
    }
  }

  /** Every rank below `totalRanks` has passed a value other than None. */
  predicate EveryRankSent<T>(calls: seq<GatherCall<T>>, totalRanks: nat) {
    forall i :: 0 <= i < totalRanks ==> !LastSent(calls, i).Null?
  }

  /** After call m, slot i holds the latest value rank i passed up to and including call m. */
  lemma GatherSlotsAt<T>(calls: seq<GatherCall<T>>, totalRanks: nat, m: nat)
    requires m < |calls|
    ensures var slots := Deposited(SlotsAfter(calls[..m], totalRanks), calls[m].rank, totalRanks, calls[m].sendbuf);
            && |slots| == totalRanks
            && forall i :: 0 <= i < totalRanks ==> slots[i] == LastSent(calls[..m + 1], i)
  {
    var latest := calls[..m + 1];
    assert latest[..m] == calls[..m];
    SlotsAreLastSent(latest, totalRanks);
  }

  /**
    A Gather on the root returns slot i = the latest value of rank i for every i
    once every rank has passed a value; otherwise it raises ConcurrencyError
    naming exactly the ranks that have not.
  */
  lemma GatherReplay<T>(calls: seq<GatherCall<T>>, totalRanks: nat, m: nat)
    requires m < |calls| && calls[m].rank < totalRanks
    ensures var g := Gathered(SlotsAfter(calls[..m], totalRanks), calls[m].rank, totalRanks, calls[m].rank, calls[m].sendbuf);
            var latest := calls[..m + 1];
            && (g.result.Ok? <==> EveryRankSent(latest, totalRanks))
            && (g.result.Ok? ==> g.result.value.Some? && |g.result.value.value| == totalRanks
                                 && forall i :: 0 <= i < totalRanks ==> g.result.value.value[i] == LastSent(latest, i))
            && (g.result.Err? ==> (g.result.error.ConcurrencyError? && g.result.error.reason.GatherBeforeRanks?
                                   && forall i :: i in g.result.error.reason.ranks <==> 0 <= i < totalRanks && LastSent(latest, i).Null?))
  {
    GatherSlotsAt(calls, totalRanks, m);
    var g := Gathered(SlotsAfter(calls[..m], totalRanks), calls[m].rank, totalRanks, calls[m].rank, calls[m].sendbuf);
    var latest := calls[..m + 1];
    assert g.slots == Deposited(SlotsAfter(calls[..m], totalRanks), calls[m].rank, totalRanks, calls[m].sendbuf);
    assert calls[m].rank < |g.slots| == totalRanks;
    assert forall i :: 0 <= i < totalRanks ==> g.slots[i] == LastSent(latest, i);
    if EveryRankSent(latest, totalRanks) {
      forall i | 0 <= i < |g.slots|
        ensures !g.slots[i].Null?
      {
        assert g.slots[i] == LastSent(latest, i);
      }
    } else {
      var i :| 0 <= i < totalRanks && LastSent(latest, i).Null?;
      assert i < |g.slots| && g.slots[i].Null?;
      assert !(forall j :: 0 <= j < |g.slots| ==> !g.slots[j].Null?);
    }
  }

  // ---------------------------------------------------------------------------
  // Runs of the classes in the order the mock is meant to be called

  /** Three Split calls with one color hand out ranks 0, 1, 2 over one shared buffer, all of size 3. */
  method SplitInOrder<T>() returns (c0: LocalComm<T>, c1: LocalComm<T>, c2: LocalComm<T>)
    ensures c0.rank == 0 && c1.rank == 1 && c2.rank == 2
    ensures c0.totalRanks == 3 && c1.totalRanks == 3 && c2.totalRanks == 3
    ensures c0.buffer == c1.buffer == c2.buffer
  {
    var world := new Buffer<T>();
    var comm := new LocalComm(0, 1, world);
    assert world.SplitConsistent(7);
    c0 := comm.Split(7, 0);
    c1 := comm.Split(7, 0);
    c2 := comm.Split(7, 0);
    assert world.Registry(7) == [c0, c1, c2];
  }

  /** Rank 1's bcast after rank 0's returns rank 0's value; the value rank 1 passes is ignored. */
  method BcastInOrder<T>(v: Value<T>, w: Value<T>) returns (r0: Result<Value<T>, Error>, r1: Result<Value<T>, Error>)
    ensures r0 == Ok(v) && r1 == Ok(v)
  {
    var world := new Buffer<T>();
    var comm0 := new LocalComm(0, 2, world);
    var comm1 := new LocalComm(1, 2, world);
    r0 := comm0.Bcast(v, 0);
    r1 := comm1.Bcast(w, 0);
  }

  /** A bcast on rank 1 before rank 0 made the call fails with IndexError. */
  method BcastBeforeRoot<T>(w: Value<T>) returns (r1: Result<Value<T>, Error>)
    ensures r1 == Err(IndexError)
  {
    var world := new Buffer<T>();
    var comm1 := new LocalComm(1, 2, world);
    r1 := comm1.Bcast(w, 0);
  }

  /** Two sends from rank 0 to rank 1 are received in order; a third receive finds the queue drained. */
  method SendRecvInOrder<T>(v1: Value<T>, v2: Value<T>)
    returns (r0: Result<Value<T>, Error>, r1: Result<Value<T>, Error>, r2: Result<Value<T>, Error>, r3: Result<Value<T>, Error>)
    ensures r0 == Err(ConcurrencyError(RecvBeforeAnySend))
    ensures r1 == Ok(v1) && r2 == Ok(v2) && r3 == Err(IndexError)
  {
    var world := new Buffer<T>();
    var comm0 := new LocalComm(0, 2, world);
    var comm1 := new LocalComm(1, 2, world);
    r0 := comm1.Recv(0, 0);
    comm0.Send(v1, 1, 0);
    comm0.Send(v2, 1, 0);
    r1 := comm1.Recv(0, 0);
    r2 := comm1.Recv(0, 0);
    r3 := comm1.Recv(0, 0);
  }

  /** An Irecv posted before the matching send receives the message when it is waited on. */
  method IrecvThenWait<T>(v: Value<T>) returns (r: Result<Option<Value<T>>, Error>)
    ensures r == Ok(Some(v))
  {
    var world := new Buffer<T>();
    var comm0 := new LocalComm(0, 2, world);
    var comm1 := new LocalComm(1, 2, world);
    var req := comm1.Irecv(0, 5);
    var sent := comm0.Isend(v, 1, 5);
    r := Wait(req);
  }

  /** A Gather on the root before rank 1 has called raises ConcurrencyError naming rank 1. */
  method GatherRootFirst<T>(v0: Value<T>) returns (early: Result<Option<seq<Value<T>>>, Error>)
    requires !v0.Null?
    ensures early == Err(ConcurrencyError(GatherBeforeRanks([1])))
  {
    var world := new Buffer<T>();
    var comm0 := new LocalComm(0, 2, world);
    assert EmptySlots<T>(2)[0 := v0] == [v0, Null];
    early := comm0.Gather(v0, 0);
    OnlySecondUncalled(v0);
  }

  lemma OnlySecondUncalled<T>(v0: Value<T>)
    requires !v0.Null?
    ensures Uncalled([v0, Null]) == [1]
  {
    assert Uncalled([v0]) == [] by {
      assert [v0][..0] == [];
    }
    assert [v0, Null][..1] == [v0];
  }

  /** With rank 1 gathered first, the root receives both slots, in rank order. */
  method GatherInOrder<T>(v0: Value<T>, v1: Value<T>)
    returns (r1: Result<Option<seq<Value<T>>>, Error>, r0: Result<Option<seq<Value<T>>>, Error>)
    requires !v0.Null? && !v1.Null?
    ensures r1 == Ok(None) && r0 == Ok(Some([v0, v1]))
  {
    var world := new Buffer<T>();
    var comm0 := new LocalComm(0, 2, world);
    var comm1 := new LocalComm(1, 2, world);
    assert EmptySlots<T>(2)[1 := v1] == [Null, v1];
    r1 := comm1.Gather(v1, 0);
    assert [Null, v1][0 := v0] == [v0, v1];
    r0 := comm0.Gather(v0, 0);
  }

  // ---------------------------------------------------------------------------
  // Whole schedules run through the classes agree with the replays

  /** A fresh buffer dictionary and one fresh comm per rank 0 .. size-1, all sharing it. */
  method FreshWorld<T>(size: nat) returns (world: Buffer<T>, comms: seq<LocalComm<T>>)
    ensures fresh(world) && world.logs == map[] && world.sendRecv == None && world.gather == None
    ensures world.splitComms == map[] && world.splitBuffers == map[]
    ensures |comms| == size
    ensures forall r :: 0 <= r < size ==>
              fresh(comms[r]) && comms[r].rank == r && comms[r].totalRanks == size
              && comms[r].buffer == world && comms[r].iBuffer == map[]
  {
    world := new Buffer<T>();
    comms := [];
    while |comms| < size
      invariant |comms| <= size
      invariant fresh(world) && world.logs == map[] && world.sendRecv == None && world.gather == None
      invariant world.splitComms == map[] && world.splitBuffers == map[]
      invariant forall r :: 0 <= r < |comms| ==>
                  fresh(comms[r]) && comms[r].rank == r && comms[r].totalRanks == size
                  && comms[r].buffer == world && comms[r].iBuffer == map[]
    {
      var comm := new LocalComm(|comms|, size, world);
      comms := comms + [comm];
    }
  }

  /** Call m of a bcast schedule, on the comm of its rank, takes the log and that rank's cursor from the replay's state after m calls to that after m + 1. */
  method BcastCallAt<T>(comm: LocalComm<T>, calls: seq<BufferCall<T>>, m: nat) returns (r: Result<Value<T>, Error>)
    requires m < |calls| && comm.rank == calls[m].rank
    requires LogOf(comm.buffer.logs, BcastLog) == LogAfter(calls[..m]).log
    requires Cursor(comm.iBuffer, BcastLog) == RankCursor(LogAfter(calls[..m]).cursors, comm.rank)
    modifies comm`iBuffer, comm.buffer`logs
    ensures LogOf(comm.buffer.logs, BcastLog) == LogAfter(calls[..m + 1]).log
    ensures Cursor(comm.iBuffer, BcastLog) == RankCursor(LogAfter(calls[..m + 1]).cursors, comm.rank)
    ensures forall rank :: rank != comm.rank ==>
              RankCursor(LogAfter(calls[..m + 1]).cursors, rank) == RankCursor(LogAfter(calls[..m]).cursors, rank)
    ensures r == CallResult(calls, m)
  {
    assert calls[..m + 1][..m] == calls[..m];
    r := comm.Bcast(calls[m].value, 0);
  }

  /** Operation m of a point-to-point schedule, on the comm that makes it, takes the table from the replay's state after m operations to that after m + 1. */
  method P2POpAt<T>(comm: LocalComm<T>, ops: seq<P2POp<T>>, m: nat) returns (r: Result<Option<Value<T>>, Error>)
    requires m < |ops| && comm.rank == (if ops[m].SendOp? then ops[m].sender else ops[m].receiver)
    requires comm.buffer.sendRecv == TableAfter(ops[..m])
    modifies comm.buffer`sendRecv
    ensures comm.buffer.sendRecv == TableAfter(ops[..m + 1])
    ensures r == OpResult(ops, m)
  {
    assert ops[..m + 1][..m] == ops[..m];
    match ops[m] {
      case SendOp(sender, dest, tag, v) =>
        comm.Send(v, dest, tag);
        r := Ok(None);
      case RecvOp(receiver, source, tag) =>
        var got := comm.Recv(source, tag);
        r := if got.Ok? then Ok(Some(got.value)) else Err(got.error);
    }
  }

  /** What the first m calls of a bcast schedule return, in order. */
  function CallResults<T>(calls: seq<BufferCall<T>>, m: nat): (results: seq<Result<Value<T>, Error>>)
    requires m <= |calls|
    ensures |results| == m
    ensures forall n :: 0 <= n < m ==> results[n] == CallResult(calls, n)
  {
    if m == 0 then [] else CallResults(calls, m - 1) + [CallResult(calls, m - 1)]
  }

  /** Every call of a bcast schedule gets the root's value of the same count, or IndexError. */
  lemma BcastResultsReplayed<T>(calls: seq<BufferCall<T>>)
    ensures forall m :: 0 <= m < |calls| ==>
              var n := CallsBy(calls[..m], calls[m].rank);
              var roots := RootValues(calls[..m + 1]);
              CallResult(calls, m) == if n < |roots| then Ok(roots[n]) else Err(IndexError)
  {
    forall m | 0 <= m < |calls|
      ensures var n := CallsBy(calls[..m], calls[m].rank);
              var roots := RootValues(calls[..m + 1]);
              CallResult(calls, m) == if n < |roots| then Ok(roots[n]) else Err(IndexError)
    {
      BufferReplay(calls, m);
    }
  }

  /**
    The bcast calls, run in order on the comms of a fresh world, return what the
    replay says: the n-th call of a rank gets the root's n-th value, or IndexError.
  */
  method BcastRun<T>(calls: seq<BufferCall<T>>, size: nat) returns (results: seq<Result<Value<T>, Error>>)
    requires forall m :: 0 <= m < |calls| ==> calls[m].rank < size
    ensures |results| == |calls|
    ensures forall m :: 0 <= m < |calls| ==> results[m] == CallResult(calls, m)
    ensures forall m :: 0 <= m < |calls| ==>
              var n := CallsBy(calls[..m], calls[m].rank);
              var roots := RootValues(calls[..m + 1]);
              results[m] == if n < |roots| then Ok(roots[n]) else Err(IndexError)
  {
    var world, comms := FreshWorld<T>(size);
    results := [];
    var m := 0;
    while m < |calls|
      invariant 0 <= m <= |calls| && |results| == m
      invariant results == CallResults(calls, m)
      invariant LogOf(world.logs, BcastLog) == LogAfter(calls[..m]).log
      invariant forall r :: 0 <= r < size ==>
                  fresh(comms[r]) && comms[r].rank == r && comms[r].buffer == world
                  && Cursor(comms[r].iBuffer, BcastLog) == RankCursor(LogAfter(calls[..m]).cursors, r)
    {
      var r := BcastCallAt(comms[calls[m].rank], calls, m);
      results := results + [r];
      m := m + 1;
    }
    BcastResultsReplayed(calls);
  }

  /** What the first m operations of a point-to-point schedule return, in order. */
  function OpResults<T>(ops: seq<P2POp<T>>, m: nat): (results: seq<Result<Option<Value<T>>, Error>>)
    requires m <= |ops|
    ensures |results| == m
    ensures forall n :: 0 <= n < m ==> results[n] == OpResult(ops, n)
  {
    if m == 0 then [] else OpResults(ops, m - 1) + [OpResult(ops, m - 1)]
  }

  /** The point-to-point operations, run in order on the comms of a fresh world, return what the replay says. */
  method P2PRun<T>(ops: seq<P2POp<T>>, size: nat) returns (results: seq<Result<Option<Value<T>>, Error>>)
    requires forall m :: 0 <= m < |ops| ==> (if ops[m].SendOp? then ops[m].sender else ops[m].receiver) < size
    ensures |results| == |ops|
    ensures forall m :: 0 <= m < |ops| ==> results[m] == OpResult(ops, m)
  {
    var world, comms := FreshWorld<T>(size);
    results := [];
    var m := 0;
    while m < |ops|
      invariant 0 <= m <= |ops| && |results| == m
      invariant results == OpResults(ops, m)
      invariant world.sendRecv == TableAfter(ops[..m])
      invariant forall r :: 0 <= r < size ==> fresh(comms[r]) && comms[r].rank == r && comms[r].buffer == world
    {
      var caller := if ops[m].SendOp? then ops[m].sender else ops[m].receiver;
      var r := P2POpAt(comms[caller], ops, m);
      results := results + [r];
      m := m + 1;
    }
  }

  /** What call m of a Gather schedule with `root` returns: `Gathered` on the slots the earlier calls left. */
  function GatherResult<T>(calls: seq<GatherCall<T>>, totalRanks: nat, root: int, m: nat): Result<Option<seq<Value<T>>>, Error>
    requires m < |calls|
  {
    Gathered(SlotsAfter(calls[..m], totalRanks), calls[m].rank, totalRanks, root, calls[m].sendbuf).result
  }

  /** What the first m calls of a Gather schedule with `root` return, in order. */
  function GatherResults<T>(calls: seq<GatherCall<T>>, totalRanks: nat, root: int, m: nat): (results: seq<Result<Option<seq<Value<T>>>, Error>>)
    requires m <= |calls|
    ensures |results| == m
    ensures forall n :: 0 <= n < m ==> results[n] == GatherResult(calls, totalRanks, root, n)
  {
    if m == 0 then [] else GatherResults(calls, totalRanks, root, m - 1) + [GatherResult(calls, totalRanks, root, m - 1)]
  }

  /** Every root call of a schedule whose ranks are in range succeeds exactly when every rank has passed a value. */
  lemma GatherRootResults<T>(calls: seq<GatherCall<T>>, size: nat, root: int)
    requires forall m :: 0 <= m < |calls| ==> calls[m].rank < size
    ensures forall m :: 0 <= m < |calls| && calls[m].rank == root ==>
              (GatherResult(calls, size, root, m).Ok? <==> EveryRankSent(calls[..m + 1], size))
  {
    forall m | 0 <= m < |calls| && calls[m].rank == root
      ensures GatherResult(calls, size, root, m).Ok? <==> EveryRankSent(calls[..m + 1], size)
    {
      GatherReplay(calls, size, m);
    }
  }

  /** Call m of a Gather schedule, on the comm of its rank, takes the slots from the replay's state after m calls to that after m + 1. */
  method GatherCallAt<T>(comm: LocalComm<T>, calls: seq<GatherCall<T>>, size: nat, root: int, m: nat)
    returns (r: Result<Option<seq<Value<T>>>, Error>)
    requires m < |calls| && comm.rank == calls[m].rank && comm.totalRanks == size
    requires comm.buffer.gather == SlotsAfter(calls[..m], size)
    modifies comm.buffer`gather
    ensures comm.buffer.gather == SlotsAfter(calls[..m + 1], size)
    ensures r == GatherResult(calls, size, root, m)
  {
    assert calls[..m + 1][..m] == calls[..m];
    r := comm.Gather(calls[m].sendbuf, root);
  }

  /**
    The Gather calls, all with one root, run in order on the comms of a fresh world,
    return what the replay says; a call on the root succeeds exactly when every rank
    has passed a value.
  */
  method GatherRun<T>(calls: seq<GatherCall<T>>, size: nat, root: int) returns (results: seq<Result<Option<seq<Value<T>>>, Error>>)
    requires forall m :: 0 <= m < |calls| ==> calls[m].rank < size
    ensures |results| == |calls|
    ensures forall m :: 0 <= m < |calls| ==>
              results[m] == GatherResult(calls, size, root, m)
    ensures forall m :: 0 <= m < |calls| && calls[m].rank == root ==>
              (results[m].Ok? <==> EveryRankSent(calls[..m + 1], size))
  {
    var world, comms := FreshWorld<T>(size);
    results := [];
    var m := 0;
    while m < |calls|
      invariant 0 <= m <= |calls| && |results| == m
      invariant results == GatherResults(calls, size, root, m)
      invariant world.gather == SlotsAfter(calls[..m], size)
      invariant forall r :: 0 <= r < size ==>
                  fresh(comms[r]) && comms[r].rank == r && comms[r].buffer == world && comms[r].totalRanks == size
    {
      var r := GatherCallAt(comms[calls[m].rank], calls, size, root, m);
      results := results + [r];
      m := m + 1;
    }
    GatherRootResults(calls, size, root);
  }

  // ---------------------------------------------------------------------------
  // The operations the mock refuses

  /** `allgather` cannot run on ranks called one after another. */
  function Allgather<T>(sendobj: Value<T>): (r: Result<Value<T>, Error>)
    ensures r == Err(NotImplementedError(InherentParallelism))
  {
    Err(NotImplementedError(InherentParallelism))
  }

  /** `sendrecv` needs both ranks at once. */
  function Sendrecv<T>(sendbuf: Value<T>, dest: int): (r: Result<Value<T>, Error>)
    ensures r == Err(NotImplementedError(RequiresSynchronicity))
  {
    Err(NotImplementedError(RequiresSynchronicity))
  }

  /** `allreduce` needs every rank at once. */
  function AllreduceObject<T>(sendobj: Value<T>): (r: Result<Value<T>, Error>)
    ensures r == Err(NotImplementedError(RequiresSynchronicity))
  {
    Err(NotImplementedError(RequiresSynchronicity))
  }

  /** `Allreduce` needs every rank at once. */
  function Allreduce<T>(sendobj: Value<T>): (r: Result<Value<T>, Error>)
    ensures r == Err(NotImplementedError(RequiresSynchronicity))
  {
    Err(NotImplementedError(RequiresSynchronicity))
  }
}
