/** The request/reply correlation layer of the TMCL driver: at most one request in
    flight per correlation key, a FIFO queue of the requests waiting behind it, a
    single resolution per request (whichever of reply, transmit error and timeout
    comes first), and the target-reached event that completes moves and, after a
    confirming status read, reference searches.

    Callbacks are request ids; what a callback does with its outcome is not part of
    the driver. Timers and the CAN transmitter are events delivered by the
    environment: a timeout or a transmit result names the key and the request it
    was armed for, as the closures in the driver capture them. */
module TmclDriver {
  import opened Bytes
  import opened Options
  import opened TmclCodec

  /** Who is told the outcome: the caller of `transmit` (its callback, or the
      promise standing in for one), or the driver itself, checking whether the
      reference search on `axis` of `device` has finished. */
  datatype Handler = Caller | ConfirmSearch(device: Byte, axis: Byte)

  /** An in-flight entry: the done-handler of a transmitted request, with the
      command, type and motor bank its closure captured and the timeout it armed. */
  datatype Entry = Entry(id: nat, command: Byte, typ: Byte, motorBank: Byte, handler: Handler, timeoutMs: nat)

  /** A request waiting behind the entry of its key: motor bank, value and
      callback; the queue stores no command and no type. */
  datatype Waiting = Waiting(id: nat, motorBank: Byte, value: int, handler: Handler)

  /** One call of the CAN transmitter: the frame, the destination id and its length. */
  datatype Transmission = Transmission(data: seq<Byte>, canId: Byte, idLen: int, id: nat)

  /** A request as its submitter made it. */
  datatype Request = Request(command: Byte, typ: Byte, motorBank: Byte, value: int, handler: Handler)

  /** A call of a done-handler. */
  datatype Resolution = Resolution(id: nat, outcome: Outcome)

  datatype Phase = Queued(key: nat) | InFlight(key: nat) | Resolved

  lemma AppendAssoc<T>(a: seq<T>, b: seq<T>, c: seq<T>)
    ensures a + (b + c) == (a + b) + c
  {
  }

  function QueueAt(m: map<nat, seq<Waiting>>, k: nat): seq<Waiting> {
    if k in m then m[k] else []
  }

  function Ids(ws: seq<Waiting>): (r: seq<nat>)
    ensures |r| == |ws| && forall i :: 0 <= i < |ws| ==> r[i] == ws[i].id
  {
    seq(|ws|, i requires 0 <= i < |ws| => ws[i].id)
  }

  lemma IdsAppend(q: seq<Waiting>, w: Waiting)
    ensures Ids(q + [w]) == Ids(q) + [w.id]
  {
  }

  lemma IdsTail(q: seq<Waiting>)
    requires q != []
    ensures Ids(q) == [q[0].id] + Ids(q[1..])
  {
  }

  ghost predicate NoDup(s: seq<nat>) {
    forall i, j :: 0 <= i < j < |s| ==> s[i] != s[j]
  }

  /** The key of the move on `axis`, and of the reference search on it. */
  function MoveKey(device: Byte, axis: nat): nat
    requires axis < 3
  {
    Key(device, MVP, 0, axis)
  }

  function SearchKey(device: Byte, axis: nat): nat
    requires axis < 3
  {
    Key(device, RFS, 0, axis)
  }

  /** Key k holds the same entry, or none, in both maps. */
  predicate Agree(m1: map<nat, Entry>, m2: map<nat, Entry>, k: nat) {
    (k in m1 <==> k in m2) && (k in m1 ==> m1[k] == m2[k])
  }

  /** A key that carries an axis, for opcode `command`. */
  predicate IsAxisKey(k: nat, command: Byte) {
    KeyCommand(k) == command && KeyAxis(k) != 0
  }

  /** The target-reached event of `device` flags the axis of move key k. */
  predicate FlaggedMove(k: nat, device: Byte, mask: Byte) {
    && IsAxisKey(k, MVP) && KeyDevice(k) == device
    && KeyAxis(k) <= 3 && BitSet(mask, KeyAxis(k) - 1)
  }

  /** The move keys the target-reached event completes on axes below n. */
  function Moved(device: Byte, mask: Byte, n: nat): set<nat>
    requires n <= 3
  {
    if n == 0 then {}
    else Moved(device, mask, n - 1) + if BitSet(mask, n - 1) then {MoveKey(device, n - 1)} else {}
  }

  /** Only flagged move keys are completed. */
  lemma {:induction false} MovedAreFlagged(device: Byte, mask: Byte, n: nat, k: nat)
    requires n <= 3
    ensures k in Moved(device, mask, n) ==> FlaggedMove(k, device, mask) && KeyAxis(k) <= n
  {
    if n > 0 {
      MovedAreFlagged(device, mask, n - 1, k);
      KeyFields(device, MVP, 0, n - 1);
    }
  }

  /** Keys outside the completed moves and the status-read key are exactly the
      axis keys the event does not flag, as far as agreement goes. */
  lemma UntouchedAxes(m: map<nat, Entry>, m': map<nat, Entry>, dev: Byte, device: Byte, mask: Byte)
    requires forall k2 :: k2 != ReplyKey(dev, RFS) && k2 !in Moved(device, mask, 3) ==> Agree(m', m, k2)
    ensures forall k2 :: KeyAxis(k2) != 0 && !FlaggedMove(k2, device, mask) ==> Agree(m', m, k2)
  {
    forall k2 | KeyAxis(k2) != 0 && !FlaggedMove(k2, device, mask)
      ensures Agree(m', m, k2)
    {
      ReplyKeyFields(dev, RFS);
      MovedAreFlagged(device, mask, 3, k2);
    }
  }

  /** The keys a target-reached event leaves alone shrink by the move key of each
      flagged axis. */
  lemma ReachStep(m0: map<nat, Entry>, m1: map<nat, Entry>, m2: map<nat, Entry>, r: nat, device: Byte, mask: Byte, i: nat)
    requires i < 3
    requires forall k :: k != r && k !in Moved(device, mask, i) ==> Agree(m1, m0, k)
    requires BitSet(mask, i) ==> forall k :: k != MoveKey(device, i) && k != r ==> Agree(m2, m1, k)
    requires !BitSet(mask, i) ==> m2 == m1
    ensures forall k :: k != r && k !in Moved(device, mask, i + 1) ==> Agree(m2, m0, k)
  {
    assert Moved(device, mask, i + 1) == Moved(device, mask, i) + if BitSet(mask, i) then {MoveKey(device, i)} else {};
    forall k | k != r && k !in Moved(device, mask, i + 1)
      ensures Agree(m2, m0, k)
    {
      assert Agree(m1, m0, k);
      assert Agree(m2, m1, k);
    }
  }

  /** Axis i's share of MovesCompleted, looked up in a map that agrees with m on
      the move key of i. */
  lemma MovesStep(m: map<nat, Entry>, m': map<nat, Entry>, device: Byte, mask: Byte, i: nat)
      returns (moved: seq<Resolution>)
    requires i < 3 && Agree(m', m, MoveKey(device, i))
    ensures moved == if BitSet(mask, i) && MoveKey(device, i) in m'
                     then [Resolution(m'[MoveKey(device, i)].id, Success(None))] else []
    ensures MovesCompleted(m, device, mask, i + 1) == MovesCompleted(m, device, mask, i) + moved
  {
    moved := if BitSet(mask, i) && MoveKey(device, i) in m'
             then [Resolution(m'[MoveKey(device, i)].id, Success(None))] else [];
  }

  /** Axis i's share of SearchChecks, looked up in a map that agrees with m on the
      search key of i. */
  lemma ChecksStep(m: map<nat, Entry>, m': map<nat, Entry>, device: Byte, mask: Byte, i: nat)
      returns (checked: seq<Request>)
    requires i < 3 && Agree(m', m, SearchKey(device, i))
    ensures checked == if BitSet(mask, i) && SearchKey(device, i) in m'
                       then [Request(RFS, 2, i, 0, ConfirmSearch(device, i))] else []
    ensures SearchChecks(m, device, mask, i + 1) == SearchChecks(m, device, mask, i) + checked
  {
    checked := if BitSet(mask, i) && SearchKey(device, i) in m'
               then [Request(RFS, 2, i, 0, ConfirmSearch(device, i))] else [];
  }

  /** The move and search keys of an axis differ from each other and from the key of
      the status read, and axis i's keys are not among those completed below i. */
  lemma MoveKeysApart(dev: Byte, device: Byte, mask: Byte, i: nat)
    requires i < 3
    ensures MoveKey(device, i) != SearchKey(device, i)
    ensures MoveKey(device, i) != ReplyKey(dev, RFS) && SearchKey(device, i) != ReplyKey(dev, RFS)
    ensures MoveKey(device, i) !in Moved(device, mask, i) && SearchKey(device, i) !in Moved(device, mask, i)
  {
    KeyFields(device, MVP, 0, i);
    KeyFields(device, RFS, 0, i);
    ReplyKeyFields(dev, RFS);
    MovedAreFlagged(device, mask, i, MoveKey(device, i));
    MovedAreFlagged(device, mask, i, SearchKey(device, i));
  }

  /** The resolutions the target-reached event brings about on axes below n: each
      flagged axis with a pending move, in axis order, succeeds without a value. */
  function MovesCompleted(m: map<nat, Entry>, device: Byte, mask: Byte, n: nat): seq<Resolution>
    requires n <= 3
  {
    if n == 0 then []
    else
      var k := MoveKey(device, n - 1);
      MovesCompleted(m, device, mask, n - 1)
      + if BitSet(mask, n - 1) && k in m then [Resolution(m[k].id, Success(None))] else []
  }

  /** The status reads the event submits on axes below n: one per flagged axis with a
      pending reference search, as `transmit(13, 2, axis, 0)`. */
  function SearchChecks(m: map<nat, Entry>, device: Byte, mask: Byte, n: nat): seq<Request>
    requires n <= 3
  {
    if n == 0 then []
    else
      SearchChecks(m, device, mask, n - 1)
      + if BitSet(mask, n - 1) && SearchKey(device, n - 1) in m
        then [Request(RFS, 2, n - 1, 0, ConfirmSearch(device, n - 1))] else []
  }

  function At(m: map<nat, seq<nat>>, k: nat): seq<nat> {
    if k in m then m[k] else []
  }

  /** The driver's bookkeeping as one value: the entries and queues it stores and,
      beside them, every request (indexed by id), where each request is, every call
      of a done-handler, and per key the requests in submission and in resolution
      order. */
  datatype Ledger = Ledger(
    inflight: map<nat, Entry>, queues: map<nat, seq<Waiting>>,
    reqs: seq<Request>, phase: seq<Phase>, log: seq<Resolution>,
    history: map<nat, seq<nat>>, done: map<nat, seq<nat>>)

  /** Entry e, filed under k, is the in-flight transmission of request e.id: filed
      under the key its own command, type and motor bank give, with the timeout that
      key class calls for. */
  ghost predicate EntryOk(dev: Byte, b: Ledger, k: nat, e: Entry) {
    && e.id < |b.phase| && e.id < |b.reqs|
    && b.phase[e.id] == InFlight(k)
    && k == Key(dev, e.command, e.typ, e.motorBank)
    && e.timeoutMs == TimeoutMs(e.command, e.typ)
    && e.command == b.reqs[e.id].command && e.motorBank == b.reqs[e.id].motorBank
    && e.handler == b.reqs[e.id].handler
    && IsMotion(e.command, e.typ) == IsMotion(b.reqs[e.id].command, b.reqs[e.id].typ)
    && (IsMotion(e.command, e.typ) ==> e.handler.Caller?)
  }

  /** Waiting request w sits behind entry e of key k: sending it with e's command
      and type files it under k again. */
  ghost predicate WaitingOk(dev: Byte, b: Ledger, e: Entry, k: nat, w: Waiting) {
    && w.id < |b.phase| && w.id < |b.reqs|
    && b.phase[w.id] == Queued(k)
    && Key(dev, e.command, e.typ, w.motorBank) == k
    && b.reqs[w.id].command == e.command
    && IsMotion(b.reqs[w.id].command, b.reqs[w.id].typ) == IsMotion(e.command, e.typ)
    && w.motorBank == b.reqs[w.id].motorBank && w.value == b.reqs[w.id].value
    && w.handler == b.reqs[w.id].handler
    && (IsMotion(e.command, e.typ) ==> w.handler.Caller?)
  }

  ghost predicate EntriesOk(dev: Byte, b: Ledger) {
    forall k {:trigger b.inflight[k]} :: k in b.inflight ==> k in b.history && EntryOk(dev, b, k, b.inflight[k])
  }

  /** Queue q of key k holds each request once, and only waits behind an entry. */
  ghost predicate QueueOk(dev: Byte, b: Ledger, k: nat, q: seq<Waiting>) {
    && NoDup(Ids(q))
    && (q == [] || (k in b.inflight && forall i :: 0 <= i < |q| ==> WaitingOk(dev, b, b.inflight[k], k, q[i])))
  }

  ghost predicate QueuesOk(dev: Byte, b: Ledger) {
    forall k {:trigger b.queues[k]} :: k in b.queues ==> k in b.history && QueueOk(dev, b, k, b.queues[k])
  }

  ghost predicate PhasesOk(b: Ledger) {
    forall r :: 0 <= r < |b.phase| && b.phase[r].InFlight? ==>
      b.phase[r].key in b.inflight && b.inflight[b.phase[r].key].id == r
  }

  /** Every done-handler call is of a resolved request, and no request is resolved twice. */
  ghost predicate LogOk(b: Ledger) {
    && (forall i :: 0 <= i < |b.log| ==> b.log[i].id < |b.phase| && b.phase[b.log[i].id] == Resolved)
    && (forall i, j :: 0 <= i < j < |b.log| ==> b.log[i].id != b.log[j].id)
  }

  /** The requests of key k still to be resolved: the one in flight, then its queue. */
  ghost function Live(b: Ledger, k: nat): seq<nat> {
    (if k in b.inflight then [b.inflight[k].id] else []) + Ids(QueueAt(b.queues, k))
  }

  /** Per key, requests are resolved in the order they were submitted. */
  ghost predicate HistoryOk(b: Ledger) {
    forall k {:trigger b.history[k]} :: k in b.history ==> k in b.done && b.history[k] == b.done[k] + Live(b, k)
  }

  ghost predicate Consistent(dev: Byte, b: Ledger) {
    && |b.reqs| == |b.phase|
    && EntriesOk(dev, b) && QueuesOk(dev, b) && PhasesOk(b) && LogOk(b) && HistoryOk(b)
  }

  /** Request r is submitted (`transmit`): it gets the next id and is queued behind
      the entry of its key, or filed as that key's entry. */
  ghost function AfterPost(dev: Byte, b: Ledger, r: Request): Ledger {
    var id := |b.reqs|;
    var k := Key(dev, r.command, r.typ, r.motorBank);
    var isNew := !(k in b.history);
    var b1 := b.(reqs := b.reqs + [r],
                 history := b.history[k := (if isNew then [] else b.history[k]) + [id]],
                 done := b.done[k := if isNew then [] else At(b.done, k)]);
    if k in b.inflight then
      b1.(phase := b.phase + [Queued(k)],
          queues := b.queues[k := QueueAt(b.queues, k) + [Waiting(id, r.motorBank, r.value, r.handler)]])
    else
      b1.(phase := b.phase + [InFlight(k)],
          inflight := b.inflight[k := Entry(id, r.command, r.typ, r.motorBank, r.handler, TimeoutMs(r.command, r.typ))])
  }

  /** The entries once k is released: k deleted, then the head of its queue (if
      any) filed under k with the released entry's command and type. */
  function Refiled(m: map<nat, Entry>, k: nat, e: Entry, q: seq<Waiting>): map<nat, Entry> {
    if q == [] then m - {k}
    else (m - {k})[k := Entry(q[0].id, e.command, e.typ, q[0].motorBank, q[0].handler, TimeoutMs(e.command, e.typ))]
  }

  /** The queues once the head of k's queue (if any) has been taken. */
  function Shifted(m: map<nat, seq<Waiting>>, k: nat): map<nat, seq<Waiting>> {
    var q := QueueAt(m, k);
    if q == [] then m else m[k := q[1..]]
  }

  /** What the release of entry e sends: the head of its queue, if any, with e's
      command and type. */
  function HandOff(dev: Byte, e: Entry, q: seq<Waiting>): seq<Transmission> {
    if q == [] then []
    else [Transmission(EncodeCommand(e.command, e.typ, q[0].motorBank, q[0].value), dev, CAN_ID_LEN, q[0].id)]
  }

  /** The driver's tables and what it has handed to the CAN transmitter. */
  datatype Snapshot = Snapshot(inflight: map<nat, Entry>, queues: map<nat, seq<Waiting>>,
                               sent: seq<Transmission>, nextId: nat)

  /** The key k is deleted and handed to the head of its queue, if any, which is
      sent with the released entry's command and type. */
  function Unfiled(dev: Byte, s: Snapshot, k: nat): Snapshot
    requires k in s.inflight
  {
    var e := s.inflight[k];
    var q := QueueAt(s.queues, k);
    s.(inflight := Refiled(s.inflight, k, e, q), queues := Shifted(s.queues, k),
       sent := s.sent + HandOff(dev, e, q))
  }

  /** A request gets the next id and is queued behind the entry of its key, or
      filed as that key's entry and sent. */
  function Filed(dev: Byte, s: Snapshot, command: Byte, typ: Byte, motorBank: Byte, value: int, handler: Handler): Snapshot {
    var k := Key(dev, command, typ, motorBank);
    var id := s.nextId;
    if k in s.inflight then
      s.(queues := s.queues[k := QueueAt(s.queues, k) + [Waiting(id, motorBank, value, handler)]], nextId := id + 1)
    else
      s.(inflight := s.inflight[k := Entry(id, command, typ, motorBank, handler, TimeoutMs(command, typ))],
         sent := s.sent + [Transmission(EncodeCommand(command, typ, motorBank, value), dev, CAN_ID_LEN, id)],
         nextId := id + 1)
  }

  /** A confirming status read is resolved: its handler completes the search it is
      about, if that search is still in flight. */
  function Confirmed(dev: Byte, s: Snapshot, k: nat, h: Handler): Snapshot
    requires k in s.inflight && h.ConfirmSearch?
  {
    var s1 := Unfiled(dev, s, k);
    if SearchOf(h) in s1.inflight then Unfiled(dev, s1, SearchOf(h)) else s1
  }

  /** Flagged axis i of the target-reached event of `device`: its move completes,
      then its reference search, if pending, gets a confirming status read. */
  function FlaggedAxis(dev: Byte, s: Snapshot, device: Byte, i: nat): Snapshot
    requires i < 3
  {
    var mk := MoveKey(device, i);
    var s1 := if mk in s.inflight then Unfiled(dev, s, mk) else s;
    if SearchKey(device, i) in s1.inflight then Filed(dev, s1, RFS, 2, i, 0, ConfirmSearch(device, i)) else s1
  }

  /** The state after the target-reached event has dealt with the axes below n. */
  function ReachState(dev: Byte, s: Snapshot, device: Byte, mask: Byte, n: nat): Snapshot
    requires n <= 3
  {
    if n == 0 then s
    else
      var s1 := ReachState(dev, s, device, mask, n - 1);
      if BitSet(mask, n - 1) then FlaggedAxis(dev, s1, device, n - 1) else s1
  }

  /** The entry of k is released with `out`: the key is refiled, its queue shifted,
      and the handler call logged. */
  ghost function AfterRelease(dev: Byte, b: Ledger, k: nat, out: Outcome): Ledger
    requires Consistent(dev, b) && k in b.inflight
  {
    var e := b.inflight[k];
    var q := QueueAt(b.queues, k);
    var phase := b.phase[e.id := Resolved];
    b.(inflight := Refiled(b.inflight, k, e, q),
       queues := Shifted(b.queues, k),
       phase := if q == [] then phase
                else assert WaitingOk(dev, b, e, k, b.queues[k][0]); phase[q[0].id := InFlight(k)],
       done := b.done[k := At(b.done, k) + [e.id]],
       log := b.log + [Resolution(e.id, out)])
  }


  /** Entries and waiting requests stay well-formed when requests are appended. */
  lemma GrowOk(dev: Byte, b: Ledger, b': Ledger, k: nat, e: Entry, w: Waiting)
    requires |b.reqs| <= |b'.reqs| && b.reqs == b'.reqs[..|b.reqs|]
    requires |b.phase| <= |b'.phase| && b.phase == b'.phase[..|b.phase|]
    ensures EntryOk(dev, b, k, e) ==> EntryOk(dev, b', k, e)
    ensures WaitingOk(dev, b, e, k, w) ==> WaitingOk(dev, b', e, k, w)
  {
    if EntryOk(dev, b, k, e) {
      assert b'.phase[e.id] == b.phase[e.id] && b'.reqs[e.id] == b.reqs[e.id];
    }
    if WaitingOk(dev, b, e, k, w) {
      assert b'.phase[w.id] == b.phase[w.id] && b'.reqs[w.id] == b.reqs[w.id];
    }
  }

  lemma PostOk(dev: Byte, b: Ledger, r: Request)
    requires Consistent(dev, b)
    requires IsMotion(r.command, r.typ) ==> r.handler.Caller?
    ensures Consistent(dev, AfterPost(dev, b, r))
  {
    PostEntriesOk(dev, b, r);
    PostQueuesOk(dev, b, r);
    PostPhasesOk(dev, b, r);
    PostLogOk(dev, b, r);
    PostHistoryOk(dev, b, r);
  }

  lemma PostEntriesOk(dev: Byte, b: Ledger, r: Request)
    requires Consistent(dev, b)
    requires IsMotion(r.command, r.typ) ==> r.handler.Caller?
    ensures EntriesOk(dev, AfterPost(dev, b, r))
  {
    var b' := AfterPost(dev, b, r);
    assert b.reqs == b'.reqs[..|b.reqs|] && b.phase == b'.phase[..|b.reqs|];
    forall k2 | k2 in b'.inflight
      ensures EntryOk(dev, b', k2, b'.inflight[k2])
    {
      if k2 in b.inflight {
        GrowOk(dev, b, b', k2, b.inflight[k2], Waiting(0, 0, 0, Caller));
      }
    }
  }

  lemma PostQueuesOk(dev: Byte, b: Ledger, r: Request)
    requires Consistent(dev, b)
    requires IsMotion(r.command, r.typ) ==> r.handler.Caller?
    ensures QueuesOk(dev, AfterPost(dev, b, r))
  {
    var k := Key(dev, r.command, r.typ, r.motorBank);
    var b' := AfterPost(dev, b, r);
    forall k2 | k2 in b'.queues
      ensures QueueOk(dev, b', k2, b'.queues[k2])
    {
      if k2 == k && k in b.inflight {
        PostQueueAt(dev, b, r);
      } else {
        PostQueueElsewhere(dev, b, r, k2);
      }
    }
  }

  /** The queue a request joins stays well-formed. */
  lemma PostQueueAt(dev: Byte, b: Ledger, r: Request)
    requires Consistent(dev, b)
    requires IsMotion(r.command, r.typ) ==> r.handler.Caller?
    requires Key(dev, r.command, r.typ, r.motorBank) in b.inflight
    ensures var k := Key(dev, r.command, r.typ, r.motorBank);
      var b' := AfterPost(dev, b, r);
      k in b'.queues && QueueOk(dev, b', k, b'.queues[k])
  {
    var id := |b.reqs|;
    var k := Key(dev, r.command, r.typ, r.motorBank);
    var b' := AfterPost(dev, b, r);
    var e := b.inflight[k];
    var q := QueueAt(b.queues, k);
    var w := Waiting(id, r.motorBank, r.value, r.handler);
    assert b'.queues[k] == q + [w] && b'.inflight[k] == e;
    assert q == [] || QueueOk(dev, b, k, q);
    assert EntryOk(dev, b, k, e);
    PostQueueIds(dev, b, e, k, q, w);
    PostQueueWaiting(dev, b, r, e, q);
  }

  /** A fresh id joins a queue of distinct older ids. */
  lemma PostQueueIds(dev: Byte, b: Ledger, e: Entry, k: nat, q: seq<Waiting>, w: Waiting)
    requires w.id == |b.reqs|
    requires q == [] || (k in b.inflight && e == b.inflight[k] && QueueOk(dev, b, k, q))
    ensures NoDup(Ids(q + [w]))
  {
    IdsAppend(q, w);
    forall i | 0 <= i < |q| ensures q[i].id != w.id {
      assert WaitingOk(dev, b, e, k, q[i]);
    }
  }

  /** After a submission, the queue of an entry in flight, with the new request
      at its end, still sits behind the entry. */
  lemma PostQueueWaiting(dev: Byte, b: Ledger, r: Request, e: Entry, q: seq<Waiting>)
    requires |b.reqs| == |b.phase|
    requires IsMotion(r.command, r.typ) ==> r.handler.Caller?
    requires var k := Key(dev, r.command, r.typ, r.motorBank);
      k in b.inflight && e == b.inflight[k] && EntryOk(dev, b, k, e)
      && (q == [] || QueueOk(dev, b, k, q))
    ensures var k := Key(dev, r.command, r.typ, r.motorBank);
      var w := Waiting(|b.reqs|, r.motorBank, r.value, r.handler);
      forall i :: 0 <= i < |q| + 1 ==> WaitingOk(dev, AfterPost(dev, b, r), e, k, (q + [w])[i])
  {
    var id := |b.reqs|;
    var k := Key(dev, r.command, r.typ, r.motorBank);
    var b' := AfterPost(dev, b, r);
    var w := Waiting(id, r.motorBank, r.value, r.handler);
    assert b.reqs == b'.reqs[..id] && b.phase == b'.phase[..id];
    forall i | 0 <= i < |q| + 1
      ensures WaitingOk(dev, b', e, k, (q + [w])[i])
    {
      if i < |q| {
        assert WaitingOk(dev, b, e, k, q[i]);
        GrowOk(dev, b, b', k, e, q[i]);
      } else {
        PostWaitingOk(dev, b, r, e);
      }
    }
  }

  /** The request that joins the queue of an entry in flight sits behind it. */
  lemma PostWaitingOk(dev: Byte, b: Ledger, r: Request, e: Entry)
    requires |b.reqs| == |b.phase|
    requires IsMotion(r.command, r.typ) ==> r.handler.Caller?
    requires var k := Key(dev, r.command, r.typ, r.motorBank);
      k in b.inflight && e == b.inflight[k] && EntryOk(dev, b, k, e)
    ensures var k := Key(dev, r.command, r.typ, r.motorBank);
      WaitingOk(dev, AfterPost(dev, b, r), e, k, Waiting(|b.reqs|, r.motorBank, r.value, r.handler))
  {
    KeysEqual(dev, e.command, e.typ, e.motorBank, dev, r.command, r.typ, r.motorBank);
    KeysEqual(dev, e.command, e.typ, r.motorBank, dev, r.command, r.typ, r.motorBank);
  }

  /** Every other queue stays well-formed when a request is submitted. */
  lemma PostQueueElsewhere(dev: Byte, b: Ledger, r: Request, k2: nat)
    requires Consistent(dev, b)
    requires var k := Key(dev, r.command, r.typ, r.motorBank);
      k2 in AfterPost(dev, b, r).queues && !(k2 == k && k in b.inflight)
    ensures var b' := AfterPost(dev, b, r);
      QueueOk(dev, b', k2, b'.queues[k2])
  {
    var id := |b.reqs|;
    var b' := AfterPost(dev, b, r);
    assert b.reqs == b'.reqs[..id] && b.phase == b'.phase[..id];
    var q := b.queues[k2];
    assert b'.queues[k2] == q;
    assert QueueOk(dev, b, k2, q);
    forall i | 0 <= i < |q| && k2 in b.inflight
      ensures WaitingOk(dev, b', b'.inflight[k2], k2, q[i])
    {
      GrowOk(dev, b, b', k2, b.inflight[k2], q[i]);
    }
  }


  lemma PostPhasesOk(dev: Byte, b: Ledger, r: Request)
    requires Consistent(dev, b)
    ensures PhasesOk(AfterPost(dev, b, r))
  {
    var id := |b.reqs|;
    var k := Key(dev, r.command, r.typ, r.motorBank);
    var b' := AfterPost(dev, b, r);
    forall j | 0 <= j < |b'.phase| && b'.phase[j].InFlight?
      ensures b'.phase[j].key in b'.inflight && b'.inflight[b'.phase[j].key].id == j
    {
      if j < id {
        assert b'.phase[j] == b.phase[j];
      }
    }
  }

  lemma PostLogOk(dev: Byte, b: Ledger, r: Request)
    requires Consistent(dev, b)
    ensures LogOk(AfterPost(dev, b, r))
  {
    var b' := AfterPost(dev, b, r);
    assert b'.log == b.log && b'.phase[..|b.phase|] == b.phase;
    LogGrows(b, b');
  }

  /** The log stays well-formed while the phases only grow. */
  lemma LogGrows(b: Ledger, b': Ledger)
    requires LogOk(b) && b'.log == b.log
    requires |b.phase| <= |b'.phase| && b'.phase[..|b.phase|] == b.phase
    ensures LogOk(b')
  {
    forall i | 0 <= i < |b'.log|
      ensures b'.log[i].id < |b'.phase| && b'.phase[b'.log[i].id] == Resolved
    {
      assert b'.phase[b.log[i].id] == b'.phase[..|b.phase|][b.log[i].id];
    }
  }

  /** Every key with an entry or a queue has a history. */
  lemma FiledKeys(dev: Byte, b: Ledger, k: nat)
    requires EntriesOk(dev, b) && QueuesOk(dev, b)
    ensures k in b.inflight ==> k in b.history
    ensures k in b.queues ==> k in b.history
  {
    if k in b.inflight {
      var e := b.inflight[k];
    }
    if k in b.queues {
      var q := b.queues[k];
    }
  }

  lemma PostHistoryOk(dev: Byte, b: Ledger, r: Request)
    requires HistoryOk(b) && QueuesOk(dev, b) && EntriesOk(dev, b)
    ensures HistoryOk(AfterPost(dev, b, r))
  {
    var k := Key(dev, r.command, r.typ, r.motorBank);
    var b' := AfterPost(dev, b, r);
    PostHistoryAt(dev, b, r);
    forall k2 | k2 in b'.history && k2 != k
      ensures b'.history[k2] == b'.done[k2] + Live(b', k2)
    {
      assert Live(b', k2) == Live(b, k2);
    }
  }

  lemma PostHistoryAt(dev: Byte, b: Ledger, r: Request)
    requires HistoryOk(b) && QueuesOk(dev, b) && EntriesOk(dev, b)
    ensures var k := Key(dev, r.command, r.typ, r.motorBank);
      var b' := AfterPost(dev, b, r);
      b'.history[k] == b'.done[k] + Live(b', k)
  {
    var id := |b.reqs|;
    var k := Key(dev, r.command, r.typ, r.motorBank);
    var b' := AfterPost(dev, b, r);
    var d := if k in b.history then At(b.done, k) else [];
    HistoryAt(dev, b, k);
    PostLive(dev, b, r);
    AppendAssoc(d, Live(b, k), [id]);
    assert b'.history[k] == At(b.history, k) + [id];
    assert b'.done[k] == d;
  }

  /** The history of any key, filed or not, is its resolved requests and then its
      live ones. */
  lemma HistoryAt(dev: Byte, b: Ledger, k: nat)
    requires HistoryOk(b) && QueuesOk(dev, b) && EntriesOk(dev, b)
    ensures At(b.history, k) == (if k in b.history then At(b.done, k) else []) + Live(b, k)
  {
    if k in b.history {
      assert b.history[k] == b.done[k] + Live(b, k);
    } else {
      FiledKeys(dev, b, k);
      assert Live(b, k) == [];
    }
  }

  /** A submitted request joins the live requests of its key, last. */
  lemma PostLive(dev: Byte, b: Ledger, r: Request)
    requires QueuesOk(dev, b)
    ensures var k := Key(dev, r.command, r.typ, r.motorBank);
      Live(AfterPost(dev, b, r), k) == Live(b, k) + [|b.reqs|]
  {
    var id := |b.reqs|;
    var k := Key(dev, r.command, r.typ, r.motorBank);
    var q := QueueAt(b.queues, k);
    if k in b.inflight {
      IdsAppend(q, Waiting(id, r.motorBank, r.value, r.handler));
      AppendAssoc([b.inflight[k].id], Ids(q), [id]);
    } else {
      if k in b.queues {
        assert QueueOk(dev, b, k, b.queues[k]);
      }
      assert Live(b, k) == [];
    }
  }


  lemma ReleaseOk(dev: Byte, b: Ledger, k: nat, out: Outcome)
    requires Consistent(dev, b) && k in b.inflight
    ensures Consistent(dev, AfterRelease(dev, b, k, out))
  {
    ReleaseEntriesOk(dev, b, k, out);
    ReleaseQueuesOk(dev, b, k, out);
    ReleasePhasesOk(dev, b, k, out);
    ReleaseLogOk(dev, b, k, out);
    ReleaseHistoryOk(dev, b, k, out);
  }

  /** What a release does to the phases: the released request is resolved and the
      head of the queue, if any, is in flight; every other request keeps its phase. */
  lemma ReleasePhases(dev: Byte, b: Ledger, k: nat, out: Outcome, j: nat)
    requires Consistent(dev, b) && k in b.inflight && j < |b.phase|
    ensures var b' := AfterRelease(dev, b, k, out);
      var q := QueueAt(b.queues, k);
      && |b'.phase| == |b.phase| && b'.reqs == b.reqs
      && b'.phase[j] == if j == b.inflight[k].id then Resolved
                        else if q != [] && j == q[0].id then InFlight(k)
                        else b.phase[j]
  {
    var q := QueueAt(b.queues, k);
    if q != [] {
      assert QueueOk(dev, b, k, b.queues[k]);
      assert WaitingOk(dev, b, b.inflight[k], k, q[0]);
    }
  }

  lemma ReleaseEntriesOk(dev: Byte, b: Ledger, k: nat, out: Outcome)
    requires Consistent(dev, b) && k in b.inflight
    ensures EntriesOk(dev, AfterRelease(dev, b, k, out))
  {
    var b' := AfterRelease(dev, b, k, out);
    var e := b.inflight[k];
    var q := QueueAt(b.queues, k);
    assert EntryOk(dev, b, k, e);
    forall k2 | k2 in b'.inflight
      ensures EntryOk(dev, b', k2, b'.inflight[k2])
    {
      if k2 == k {
        assert QueueOk(dev, b, k, b.queues[k]);
        assert WaitingOk(dev, b, e, k, q[0]);
        ReleasePhases(dev, b, k, out, q[0].id);
      } else {
        var e2 := b.inflight[k2];
        assert EntryOk(dev, b, k2, e2);
        ReleasePhases(dev, b, k, out, e2.id);
        if q != [] {
          assert QueueOk(dev, b, k, b.queues[k]);
          assert WaitingOk(dev, b, e, k, q[0]);
        }
      }
    }
  }

  lemma ReleaseQueuesOk(dev: Byte, b: Ledger, k: nat, out: Outcome)
    requires Consistent(dev, b) && k in b.inflight
    ensures QueuesOk(dev, AfterRelease(dev, b, k, out))
  {
    var b' := AfterRelease(dev, b, k, out);
    forall k2 | k2 in b'.queues
      ensures QueueOk(dev, b', k2, b'.queues[k2])
    {
      if k2 == k {
        ReleaseQueueAt(dev, b, k, out);
      } else {
        ReleaseQueueElsewhere(dev, b, k, out, k2);
      }
    }
  }

  lemma ReleaseQueueAt(dev: Byte, b: Ledger, k: nat, out: Outcome)
    requires Consistent(dev, b) && k in b.inflight && k in b.queues
    ensures var b' := AfterRelease(dev, b, k, out);
      k in b'.queues && QueueOk(dev, b', k, b'.queues[k])
  {
    var b' := AfterRelease(dev, b, k, out);
    var q := b.queues[k];
    assert QueueOk(dev, b, k, q);
    if q != [] {
      var rest := q[1..];
      NoDupTail(q);
      assert b'.queues[k] == rest;
      forall i | 0 <= i < |rest|
        ensures WaitingOk(dev, b', b'.inflight[k], k, rest[i])
      {
        ReleaseQueueOne(dev, b, k, out, i + 1);
      }
    }
  }

  lemma NoDupTail(q: seq<Waiting>)
    requires q != [] && NoDup(Ids(q))
    ensures NoDup(Ids(q[1..]))
  {
    forall i, j | 0 <= i < j < |q| - 1
      ensures Ids(q[1..])[i] != Ids(q[1..])[j]
    {
      assert Ids(q)[i + 1] != Ids(q)[j + 1];
    }
  }

  /** A request behind the released one waits behind its successor. */
  lemma ReleaseQueueOne(dev: Byte, b: Ledger, k: nat, out: Outcome, i: nat)
    requires Consistent(dev, b) && k in b.inflight && k in b.queues && 0 < i < |b.queues[k]|
    ensures var b' := AfterRelease(dev, b, k, out);
      k in b'.inflight && WaitingOk(dev, b', b'.inflight[k], k, b.queues[k][i])
  {
    var b' := AfterRelease(dev, b, k, out);
    var q := b.queues[k];
    var e := b.inflight[k];
    assert EntryOk(dev, b, k, e);
    assert QueueOk(dev, b, k, q);
    assert WaitingOk(dev, b, e, k, q[i]);
    assert Ids(q)[0] != Ids(q)[i];
    ReleasePhases(dev, b, k, out, q[i].id);
    WaitingMoved(dev, b, b', k, e, b'.inflight[k], q[i]);
  }

  /** A waiting request stays well-formed behind an entry of the same command and
      type, when its own request and phase are unchanged. */
  lemma WaitingMoved(dev: Byte, b: Ledger, b': Ledger, k: nat, e: Entry, e': Entry, w: Waiting)
    requires WaitingOk(dev, b, e, k, w)
    requires e'.command == e.command && e'.typ == e.typ
    requires b'.reqs == b.reqs && |b'.phase| == |b.phase| && b'.phase[w.id] == b.phase[w.id]
    ensures WaitingOk(dev, b', e', k, w)
  {
  }

  lemma ReleaseQueueElsewhere(dev: Byte, b: Ledger, k: nat, out: Outcome, k2: nat)
    requires Consistent(dev, b) && k in b.inflight && k2 in b.queues && k2 != k
    ensures var b' := AfterRelease(dev, b, k, out);
      k2 in b'.queues && QueueOk(dev, b', k2, b'.queues[k2])
  {
    var b' := AfterRelease(dev, b, k, out);
    var e := b.inflight[k];
    var q := QueueAt(b.queues, k);
    var q2 := b.queues[k2];
    assert EntryOk(dev, b, k, e);
    assert QueueOk(dev, b, k2, q2);
    if q != [] {
      assert QueueOk(dev, b, k, b.queues[k]);
      assert WaitingOk(dev, b, e, k, q[0]);
    }
    forall i | 0 <= i < |q2|
      ensures WaitingOk(dev, b', b'.inflight[k2], k2, q2[i])
    {
      assert WaitingOk(dev, b, b.inflight[k2], k2, q2[i]);
      ReleasePhases(dev, b, k, out, q2[i].id);
    }
  }

  lemma ReleasePhasesOk(dev: Byte, b: Ledger, k: nat, out: Outcome)
    requires Consistent(dev, b) && k in b.inflight
    ensures PhasesOk(AfterRelease(dev, b, k, out))
  {
    var b' := AfterRelease(dev, b, k, out);
    var e := b.inflight[k];
    var q := QueueAt(b.queues, k);
    forall j | 0 <= j < |b'.phase| && b'.phase[j].InFlight?
      ensures b'.phase[j].key in b'.inflight && b'.inflight[b'.phase[j].key].id == j
    {
      ReleasePhases(dev, b, k, out, j);
      if j != e.id && !(q != [] && j == q[0].id) {
        assert b.phase[j].key != k;
      }
    }
  }

  lemma ReleaseLogOk(dev: Byte, b: Ledger, k: nat, out: Outcome)
    requires Consistent(dev, b) && k in b.inflight
    ensures LogOk(AfterRelease(dev, b, k, out))
  {
    ReleaseLogResolved(dev, b, k, out);
    ReleaseLogOnce(dev, b, k, out);
  }

  /** After a release, every done-handler call is of a resolved request. */
  lemma ReleaseLogResolved(dev: Byte, b: Ledger, k: nat, out: Outcome)
    requires Consistent(dev, b) && k in b.inflight
    ensures var b' := AfterRelease(dev, b, k, out);
      forall i :: 0 <= i < |b'.log| ==> b'.log[i].id < |b'.phase| && b'.phase[b'.log[i].id] == Resolved
  {
    var b' := AfterRelease(dev, b, k, out);
    forall i | 0 <= i < |b'.log|
      ensures b'.log[i].id < |b'.phase| && b'.phase[b'.log[i].id] == Resolved
    {
      assert i < |b.log| ==> b'.log[i] == b.log[i];
      assert EntryOk(dev, b, k, b.inflight[k]);
      ReleasePhases(dev, b, k, out, b'.log[i].id);
    }
  }

  /** After a release, no request has been resolved twice: the released one was in
      flight, so it had not been resolved before. */
  lemma ReleaseLogOnce(dev: Byte, b: Ledger, k: nat, out: Outcome)
    requires Consistent(dev, b) && k in b.inflight
    ensures var b' := AfterRelease(dev, b, k, out);
      forall i, j :: 0 <= i < j < |b'.log| ==> b'.log[i].id != b'.log[j].id
  {
    var b' := AfterRelease(dev, b, k, out);
    var e := b.inflight[k];
    assert EntryOk(dev, b, k, e);
    assert b'.log == b.log + [Resolution(e.id, out)];
    forall i, j | 0 <= i < j < |b'.log|
      ensures b'.log[i].id != b'.log[j].id
    {
      if j == |b.log| {
        assert b.phase[b.log[i].id] == Resolved;
      }
    }
  }

  lemma ReleaseHistoryOk(dev: Byte, b: Ledger, k: nat, out: Outcome)
    requires Consistent(dev, b) && k in b.inflight
    ensures HistoryOk(AfterRelease(dev, b, k, out))
  {
    var b' := AfterRelease(dev, b, k, out);
    ReleaseHistoryAt(dev, b, k, out);
    forall k2 | k2 in b'.history && k2 != k
      ensures b'.history[k2] == b'.done[k2] + Live(b', k2)
    {
      assert Live(b', k2) == Live(b, k2);
    }
  }

  lemma ReleaseHistoryAt(dev: Byte, b: Ledger, k: nat, out: Outcome)
    requires Consistent(dev, b) && k in b.inflight
    ensures var b' := AfterRelease(dev, b, k, out);
      k in b'.history && b'.history[k] == b'.done[k] + Live(b', k)
  {
    var b' := AfterRelease(dev, b, k, out);
    var e := b.inflight[k];
    var q := QueueAt(b.queues, k);
    assert k in b.history;
    var d := b.done[k];
    assert b.history[k] == d + ([e.id] + Ids(q));
    assert b'.history[k] == b.history[k] && b'.done[k] == d + [e.id];
    AppendAssoc(d, [e.id], Ids(q));
    if q != [] {
      IdsTail(q);
      assert QueueAt(b'.queues, k) == q[1..];
      assert b'.inflight[k].id == q[0].id;
      assert Live(b', k) == Ids(q);
    } else {
      assert QueueAt(b'.queues, k) == [] && k !in b'.inflight;
      assert Live(b', k) == Ids(q);
    }
  }

  /** Two steps that each keep all keys but one keep all keys but those two. */
  lemma AgreeChain(m0: map<nat, Entry>, m1: map<nat, Entry>, m2: map<nat, Entry>, a: nat, b: nat)
    requires forall k :: k != a ==> Agree(m1, m0, k)
    requires forall k :: k != b ==> Agree(m2, m1, k)
    ensures forall k :: k != a && k != b ==> Agree(m2, m0, k)
  {
    forall k | k != a && k != b
      ensures Agree(m2, m0, k)
    {
      assert Agree(m1, m0, k) && Agree(m2, m1, k);
    }
  }

  /** The reference search a confirming status read is about. */
  function SearchOf(h: Handler): nat
    requires h.ConfirmSearch?
  {
    Key(h.device, RFS, 0, h.axis)
  }

  /** A confirming status read is not filed under the key of the search it is
      about: the read carries no axis, the search does. */
  lemma SearchIsNotConfirm(dev: Byte, e: Entry)
    requires e.handler.ConfirmSearch? && !IsMotion(e.command, e.typ)
    ensures Key(dev, e.command, e.typ, e.motorBank) != SearchOf(e.handler)
  {
    KeyFields(dev, e.command, e.typ, e.motorBank);
    KeyFields(e.handler.device, RFS, 0, e.handler.axis);
  }

  /** A confirming status read finds its search finished: no error, position 0. */
  predicate Confirms(h: Handler, out: Outcome) {
    h.ConfirmSearch? && out == Success(Some(0))
  }

  class Driver {
    const deviceId: Byte
    const replyId: int

    var inflight: map<nat, Entry>          // `_commands`
    var queues: map<nat, seq<Waiting>>     // `_commandsQueue`
    var sent: seq<Transmission>            // what was handed to the CAN transmitter
    var nextId: nat                        // the id the next request gets

    ghost var book: Ledger                 // the bookkeeping: requests, phases, handler calls

    function Now(): Snapshot
      reads this
    {
      Snapshot(inflight, queues, sent, nextId)
    }

    ghost predicate Valid()
      reads this
    {
      && book.inflight == inflight && book.queues == queues
      && nextId == |book.reqs| && Consistent(deviceId, book)
    }

    /** Request k's entry was released with `out`: its key deleted, the head of its
        queue (if any) transmitted with the released entry's command and type, and
        then its handler called. */
    twostate predicate Released(k: nat, out: Outcome)
      reads this
    {
      && k in old(inflight)
      && Now() == Unfiled(deviceId, old(Now()), k)
      && book.log == old(book.log) + [Resolution(old(inflight)[k].id, out)]
      && book.reqs == old(book.reqs)
    }

    /** Request id was submitted: queued behind the entry of its key if there is
        one (nothing sent, no entry, no timer), otherwise filed, armed and sent. */
    twostate predicate Posted(id: nat, command: Byte, typ: Byte, motorBank: Byte, value: int, handler: Handler)
      reads this
    {
      && id == old(nextId)
      && Now() == Filed(deviceId, old(Now()), command, typ, motorBank, value, handler)
      && book.reqs == old(book.reqs) + [Request(command, typ, motorBank, value, handler)]
      && book.log == old(book.log)
    }

    /** The driver starts by asking the device to report every axis that reaches
        its target position. */
    constructor (deviceId: Byte, replyId: int)
      ensures Valid()
      ensures this.deviceId == deviceId && this.replyId == replyId
      ensures book.reqs == [Request(TARGET_REACHED, 1, 0, 255, Caller)] && book.log == []
      ensures inflight == map[Key(deviceId, TARGET_REACHED, 1, 0) := Entry(0, TARGET_REACHED, 1, 0, Caller, TIMEOUT_MS)]
      ensures queues == map[]
      ensures sent == [Transmission(EncodeCommand(TARGET_REACHED, 1, 0, 255), deviceId, CAN_ID_LEN, 0)]
    {
      this.deviceId := deviceId;
      this.replyId := replyId;
      inflight, queues, sent, nextId := map[], map[], [], 0;
      book := Ledger(map[], map[], [], [], [], map[], map[]);
      new;
      var _ := Post(TARGET_REACHED, 1, 0, 255, Caller);
    }

    /** `transmit(command, type, motorBank, value, callback)`, with or without a
        callback (the promise stands in for one). */
    method Transmit(command: Byte, typ: Byte, motorBank: Byte, value: int) returns (id: nat)
      requires Valid()
      modifies this
      ensures Valid()
      ensures Posted(id, command, typ, motorBank, value, Caller)
    {
      id := Post(command, typ, motorBank, value, Caller);
    }

    /** One of the command methods (`rotateRight`, `moveToPositionAbs`, ...). */
    method Call(op: Op) returns (id: nat)
      requires Valid()
      modifies this
      ensures Valid()
      ensures var c := OpCommand(op); Posted(id, c.command, c.typ, c.motorBank, c.value, Caller)
    {
      var c := OpCommand(op);
      id := Post(c.command, c.typ, c.motorBank, c.value, Caller);
    }

    method Post(command: Byte, typ: Byte, motorBank: Byte, value: int, handler: Handler) returns (id: nat)
      requires Valid()
      requires IsMotion(command, typ) ==> handler.Caller?
      modifies this
      ensures Valid()
      ensures Posted(id, command, typ, motorBank, value, handler)
      ensures forall k2 :: k2 != Key(deviceId, command, typ, motorBank) ==> Agree(inflight, old(inflight), k2)
    {
      ghost var r := Request(command, typ, motorBank, value, handler);
      ghost var b' := AfterPost(deviceId, book, r);
      PostOk(deviceId, book, r);
      id := File(command, typ, motorBank, value, handler);
      book := b';
    }

    /** Give the request the next id, then queue it behind the entry of its key,
        or file its done-handler, arm its timer and send its frame. */
    method File(command: Byte, typ: Byte, motorBank: Byte, value: int, handler: Handler) returns (id: nat)
      modifies this
      ensures id == old(nextId) && book == old(book)
      ensures Now() == Filed(deviceId, old(Now()), command, typ, motorBank, value, handler)
      ensures forall k2 :: k2 != Key(deviceId, command, typ, motorBank) ==> Agree(inflight, old(inflight), k2)
    {
      id := nextId;
      var k := Key(deviceId, command, typ, motorBank);
      nextId := nextId + 1;
      if k in inflight {
        queues := queues[k := QueueAt(queues, k) + [Waiting(id, motorBank, value, handler)]];
      } else {
        inflight := inflight[k := Entry(id, command, typ, motorBank, handler, TimeoutMs(command, typ))];
        sent := sent + [Transmission(EncodeCommand(command, typ, motorBank, value), deviceId, CAN_ID_LEN, id)];
      }
    }

    /** The done-handler of the entry of k runs with `out`. */
    method Release(k: nat, out: Outcome) returns (e: Entry)
      requires Valid() && k in inflight
      modifies this
      ensures Valid()
      ensures e == old(inflight)[k]
      ensures Released(k, out)
      ensures forall k2 :: k2 != k ==> Agree(inflight, old(inflight), k2)
    {
      ghost var b' := AfterRelease(deviceId, book, k, out);
      ReleaseOk(deviceId, book, k, out);
      e := Unfile(k);
      book := b';
    }

    /** Delete the key; hand it to the head of its queue, if any, sending that
        request with the released entry's command and type. */
    method Unfile(k: nat) returns (e: Entry)
      requires k in inflight
      modifies this
      ensures e == old(inflight)[k] && book == old(book)
      ensures Now() == Unfiled(deviceId, old(Now()), k)
      ensures forall k2 :: k2 != k ==> Agree(inflight, old(inflight), k2)
    {
      e := inflight[k];
      var q := QueueAt(queues, k);
      inflight := inflight - {k};
      if q != [] {
        var w := q[0];
        queues := queues[k := q[1..]];
        inflight := inflight[k := Entry(w.id, e.command, e.typ, w.motorBank, w.handler, TimeoutMs(e.command, e.typ))];
        sent := sent + [Transmission(EncodeCommand(e.command, e.typ, w.motorBank, w.value), deviceId, CAN_ID_LEN, w.id)];
      }
    }

    /** The done-handler of k runs with `out`, and its handler reacts: a caller is
        told; a confirming status read that found its search finished completes that
        search, if it is still pending. */
    method Resolve(k: nat, out: Outcome) returns (e: Entry)
      requires Valid() && k in inflight
      modifies this
      ensures Valid()
      ensures e == old(inflight)[k]
      ensures !Confirms(e.handler, out) ==> Released(k, out)
      ensures Confirms(e.handler, out) ==>
        && Now() == Confirmed(deviceId, old(Now()), k, e.handler)
        && book.reqs == old(book.reqs)
        && book.log == old(book.log) + [Resolution(e.id, out)]
               + if SearchOf(e.handler) in old(inflight)
                 then [Resolution(old(inflight)[SearchOf(e.handler)].id, Success(None))] else []
      ensures forall k2 :: k2 != k && !(Confirms(e.handler, out) && k2 == SearchOf(e.handler)) ==>
        Agree(inflight, old(inflight), k2)
    {
      assert EntryOk(deviceId, book, k, inflight[k]);
      e := Release(k, out);
      if Confirms(e.handler, out) {
        var sk := SearchOf(e.handler);
        SearchIsNotConfirm(deviceId, e);
        ghost var m1 := inflight;
        Complete(sk);
        AgreeChain(old(inflight), m1, inflight, k, sk);
      }
    }

    /** The request in flight under sk, if any, succeeds without a value. */
    method Complete(sk: nat)
      requires Valid()
      modifies this
      ensures Valid()
      ensures sk !in old(inflight) ==> unchanged(this)
      ensures sk in old(inflight) ==> Released(sk, Success(None))
      ensures forall k2 :: k2 != sk ==> Agree(inflight, old(inflight), k2)
    {
      if sk in inflight {
        var _ := Release(sk, Success(None));
      }
    }

    /** A CAN message arrives: a reply for this driver is either the target-reached
        event or the answer to the request filed under its device and opcode. */
    method OnMessage(data: seq<Byte>, id: int, idLen: int)
      requires Valid()
      modifies this
      ensures Valid()
      ensures !Accepts(data, id, idLen, replyId) ==> unchanged(this)
      ensures Accepts(data, id, idLen, replyId) ==>
        var r := DecodeReply(data).value;
        if IsTargetReached(r) then Reached(r.device, data[6]) else Replied(r)
    {
      if Accepts(data, id, idLen, replyId) {
        var r := DecodeReply(data).value;
        if IsTargetReached(r) {
          TargetReached(r.device, data[6]);
        } else {
          OnReply(r);
        }
      }
    }

    /** The reply r was handled: a reply no entry waits for changes nothing; one that
        finds its entry resolves it with the status's outcome (and a confirming
        status read then completes its search); no move is ever resolved by a reply. */
    twostate predicate Replied(r: Reply)
      reads this
    {
      var rk := ReplyKey(r.device, r.command);
      var out := StatusOutcome(r.status, r.value);
      && (rk !in old(inflight) ==>
            inflight == old(inflight) && queues == old(queues) && sent == old(sent)
            && book == old(book) && nextId == old(nextId))
      && (rk in old(inflight) ==>
            var e := old(inflight)[rk];
            && (!Confirms(e.handler, out) ==> Released(rk, out))
            && (Confirms(e.handler, out) ==>
                  && Now() == Confirmed(deviceId, old(Now()), rk, e.handler)
                  && book.reqs == old(book.reqs)
                  && book.log == old(book.log) + [Resolution(e.id, out)]
                    + if SearchOf(e.handler) in old(inflight)
                      then [Resolution(old(inflight)[SearchOf(e.handler)].id, Success(None))] else []))
      && forall k2 :: IsAxisKey(k2, MVP) ==> Agree(inflight, old(inflight), k2)
    }

    /** The target-reached event of `device` with mask `mask` was handled: each
        flagged axis completed its pending move and had its pending reference search
        checked, in axis order; no other axis key changed. */
    twostate predicate Reached(device: Byte, mask: Byte)
      reads this
    {
      && Now() == ReachState(deviceId, old(Now()), device, mask, 3)
      && book.log == old(book.log) + MovesCompleted(old(inflight), device, mask, 3)
      && book.reqs == old(book.reqs) + SearchChecks(old(inflight), device, mask, 3)
      && forall k2 :: KeyAxis(k2) != 0 && !FlaggedMove(k2, device, mask) ==> Agree(inflight, old(inflight), k2)
    }

    /** A reply other than the target-reached event. */
    method OnReply(r: Reply)
      requires Valid()
      modifies this
      ensures Valid()
      ensures Replied(r)
    {
      var rk := ReplyKey(r.device, r.command);
      if rk in inflight {
        ReplyKeyFields(r.device, r.command);
        ghost var e := inflight[rk];
        if e.handler.ConfirmSearch? {
          KeyFields(e.handler.device, RFS, 0, e.handler.axis);
        }
        var _ := Resolve(rk, StatusOutcome(r.status, r.value));
      }
    }

    /** The target-reached event of `device` with axis mask `mask`. */
    method TargetReached(device: Byte, mask: Byte)
      requires Valid()
      modifies this
      ensures Valid()
      ensures Reached(device, mask)
    {
      var i := 0;
      while i < 3
        invariant 0 <= i <= 3
        invariant Reaching(device, mask, i, old(Now()), old(inflight), old(book.log), old(book.reqs))
      {
        ReachAxis(device, mask, i, old(Now()), old(inflight), old(book.log), old(book.reqs));
        i := i + 1;
      }
      UntouchedAxes(old(inflight), inflight, deviceId, device, mask);
    }

    /** The target-reached event, begun with entries m0, log log0 and requests
        reqs0, has dealt with the axes below i. */
    ghost predicate Reaching(device: Byte, mask: Byte, i: nat, s0: Snapshot, m0: map<nat, Entry>, log0: seq<Resolution>, reqs0: seq<Request>)
      reads this
    {
      && i <= 3 && Valid()
      && Now() == ReachState(deviceId, s0, device, mask, i)
      && book.log == log0 + MovesCompleted(m0, device, mask, i)
      && book.reqs == reqs0 + SearchChecks(m0, device, mask, i)
      && forall k2 :: k2 != ReplyKey(deviceId, RFS) && k2 !in Moved(device, mask, i) ==> Agree(inflight, m0, k2)
    }

    /** Axis i of the target-reached event: a flagged axis completes its pending
        move and asks for the status of its pending reference search. */
    method ReachAxis(device: Byte, mask: Byte, i: nat, ghost s0: Snapshot, ghost m0: map<nat, Entry>, ghost log0: seq<Resolution>, ghost reqs0: seq<Request>)
      requires i < 3 && Reaching(device, mask, i, s0, m0, log0, reqs0)
      modifies this
      ensures Reaching(device, mask, i + 1, s0, m0, log0, reqs0)
    {
      var mk := MoveKey(device, i);
      var sk := SearchKey(device, i);
      MoveKeysApart(deviceId, device, mask, i);
      assert Agree(inflight, m0, mk) && Agree(inflight, m0, sk);
      ghost var moved := MovesStep(m0, inflight, device, mask, i);
      ghost var checked := ChecksStep(m0, inflight, device, mask, i);
      ghost var m, log, reqs := inflight, book.log, book.reqs;
      if BitSet(mask, i) {
        ReachFlagged(device, i);
      }
      assert book.log == log + moved && book.reqs == reqs + checked;
      AppendAssoc(log0, MovesCompleted(m0, device, mask, i), moved);
      AppendAssoc(reqs0, SearchChecks(m0, device, mask, i), checked);
      ReachStep(m0, m, inflight, ReplyKey(deviceId, RFS), device, mask, i);
    }

    /** A flagged axis i: its pending move succeeds, and its pending reference
        search gets a status read, `transmit(13, 2, i, 0)`, to confirm it. */
    method ReachFlagged(device: Byte, i: nat)
      requires Valid() && i < 3
      modifies this
      ensures Valid()
      ensures Now() == FlaggedAxis(deviceId, old(Now()), device, i)
      ensures var mk := MoveKey(device, i);
        book.log == old(book.log) + if mk in old(inflight) then [Resolution(old(inflight)[mk].id, Success(None))] else []
      ensures book.reqs == old(book.reqs)
          + if SearchKey(device, i) in old(inflight) then [Request(RFS, 2, i, 0, ConfirmSearch(device, i))] else []
      ensures forall k2 :: k2 != MoveKey(device, i) && k2 != ReplyKey(deviceId, RFS) ==>
        Agree(inflight, old(inflight), k2)
    {
      var mk := MoveKey(device, i);
      var sk := SearchKey(device, i);
      KeyFields(device, MVP, 0, i);
      KeyFields(device, RFS, 0, i);
      Complete(mk);
      assert Agree(inflight, old(inflight), sk);
      ghost var m1 := inflight;
      var kp := Key(deviceId, RFS, 2, i);
      assert kp == ReplyKey(deviceId, RFS);
      if sk in inflight {
        var _ := Post(RFS, 2, i, 0, ConfirmSearch(device, i));
      }
      AgreeChain(old(inflight), m1, inflight, mk, kp);
    }

    /** The timer armed for request id, filed under k, fires. */
    method OnTimeout(k: nat, id: nat)
      requires Valid()
      modifies this
      ensures Valid()
      ensures !(k in old(inflight) && old(inflight)[k].id == id) ==> unchanged(this)
      ensures id < |old(book.phase)| && old(book.phase)[id] == Resolved ==> unchanged(this)
      ensures k in old(inflight) && old(inflight)[k].id == id ==>
        var e := old(inflight)[k];
        Released(k, Failure(Timeout(e.typ, e.command, e.motorBank)))
    {
      if k in inflight && inflight[k].id == id {
        var e := inflight[k];
        assert EntryOk(deviceId, book, k, e);
        var _ := Resolve(k, Failure(Timeout(e.typ, e.command, e.motorBank)));
      }
    }

    /** The CAN transmitter reports on the frame of request id, filed under k. */
    method OnTransmitResult(k: nat, id: nat, failed: bool)
      requires Valid()
      modifies this
      ensures Valid()
      ensures !(failed && k in old(inflight) && old(inflight)[k].id == id) ==> unchanged(this)
      ensures id < |old(book.phase)| && old(book.phase)[id] == Resolved ==> unchanged(this)
      ensures failed && k in old(inflight) && old(inflight)[k].id == id ==> Released(k, Failure(TransmitFailed))
    {
      if failed && k in inflight && inflight[k].id == id {
        assert EntryOk(deviceId, book, k, inflight[k]);
        var _ := Resolve(k, Failure(TransmitFailed));
      }
    }
  }
}
