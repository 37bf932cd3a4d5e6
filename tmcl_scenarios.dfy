/** Short runs of the TMCL driver from a fresh start (device 1, replies on id 2),
    showing what its contracts add up to. */
module TmclScenarios {
  import opened Bytes
  import opened Options
  import opened TmclCodec
  import opened TmclDriver

  /** Two axis-parameter writes to the same device share a key, so the second
      (type 194, motor bank 1, value 7) waits behind the first (type 193). */
  method TwoWrites() returns (d: Driver)
    ensures fresh(d) && d.Valid() && d.deviceId == 1 && d.replyId == 2
    ensures var k := Key(1, SAP, 193, 0);
      && k in d.inflight && d.inflight[k] == Entry(1, SAP, 193, 0, Caller, TIMEOUT_MS)
      && k in d.queues && d.queues[k] == [Waiting(2, 1, 7, Caller)]
      && |d.sent| == 2
  {
    d := new Driver(1, 2);
    var k := Key(1, SAP, 193, 0);
    assert k == ReplyKey(1, SAP) == Key(1, SAP, 194, 1);
    var a := d.Call(SetAxisParameter(0, 193, 5));
    assert d.inflight[k] == Entry(1, SAP, 193, 0, Caller, TIMEOUT_MS) && |d.sent| == 2;
    var b := d.Call(SetAxisParameter(1, 194, 7));
  }

  /** When the first write is answered, the second goes out carrying the first
      one's parameter type (193), not its own (194): the queue keeps only motor
      bank, value and callback. */
  method QueuedRequestInheritsType() returns (second: Transmission, pending: bool)
    ensures second == Transmission(EncodeCommand(SAP, 193, 1, 7), 1, CAN_ID_LEN, 2)
    ensures pending
  {
    var d := TwoWrites();
    var k := Key(1, SAP, 193, 0);
    assert k == ReplyKey(1, SAP);
    var r := Reply(1, STATUS_OK, SAP, 0);
    var data := EncodeReply(r);
    ReplyRoundTrip(r);
    assert Accepts(data, 2, CAN_ID_LEN, d.replyId) && !IsTargetReached(r);
    ghost var e := d.inflight[k];
    ghost var q := d.queues[k];
    assert !Confirms(e.handler, StatusOutcome(STATUS_OK, 0));
    assert HandOff(1, e, q) == [Transmission(EncodeCommand(SAP, 193, 1, 7), 1, CAN_ID_LEN, 2)];
    assert Refiled(d.inflight, k, e, q)[k].typ == 193;
    d.OnMessage(data, 2, CAN_ID_LEN);
    second := d.sent[2];
    // The second write is now the entry of the key, with type 193.
    pending := k in d.inflight && d.inflight[k].typ == 193;
  }

  /** Mask 0x02 flags axis 1 alone, so only its pending move is completed. */
  lemma SecondAxisCompleted(m: map<nat, Entry>)
    requires MoveKey(1, 1) in m && m[MoveKey(1, 1)].id == 1
    ensures MovesCompleted(m, 1, 2, 3) == [Resolution(1, Success(None))]
  {
    assert !BitSet(0, 0);
    assert !BitSet(2, 0) && BitSet(2, 1) && !BitSet(2, 2);
    assert MovesCompleted(m, 1, 2, 1) == [];
    assert MovesCompleted(m, 1, 2, 2) == [Resolution(1, Success(None))];
  }

  /** The acknowledgement of a move does not resolve it: it is looked up under the
      reply key, which carries no axis, so the move of axis 1 stays pending. */
  method MoveAcknowledged() returns (d: Driver)
    ensures fresh(d) && d.Valid() && d.deviceId == 1 && d.replyId == 2
    ensures MoveKey(1, 1) in d.inflight && d.inflight[MoveKey(1, 1)].id == 1
  {
    d := new Driver(1, 2);
    var mk := MoveKey(1, 1);
    KeyFields(1, MVP, 0, 1);
    var a := d.Call(MoveToPositionAbs(1, 1000));
    assert mk in d.inflight && d.inflight[mk].id == 1;
    var ack := Reply(1, STATUS_OK, MVP, 1000);
    ReplyRoundTrip(ack);
    assert Accepts(EncodeReply(ack), 2, CAN_ID_LEN, d.replyId) && !IsTargetReached(ack);
    assert IsAxisKey(mk, MVP);
    ghost var m0 := d.inflight;
    d.OnMessage(EncodeReply(ack), 2, CAN_ID_LEN);
    assert Agree(d.inflight, m0, mk);
  }

  /** After the acknowledgement, the target-reached event with the axis's bit set
      completes the move, without a value. */
  method MoveWaitsForTargetReached() returns (afterAck: bool, ghost resolved: seq<Resolution>)
    ensures afterAck
    ensures resolved == [Resolution(1, Success(None))]
  {
    var d := MoveAcknowledged();
    afterAck := MoveKey(1, 1) in d.inflight;
    ghost var before := d.book.log;
    ghost var m := d.inflight;
    var reached := Reply(1, STATUS_EVENT, TARGET_REACHED, 0x02);
    ReplyRoundTrip(reached);
    var event := EncodeReply(reached);
    assert event[6] == 2 && Accepts(event, 2, CAN_ID_LEN, d.replyId) && IsTargetReached(reached);
    SecondAxisCompleted(m);
    d.OnMessage(event, 2, CAN_ID_LEN);
    resolved := d.book.log[|before|..];
  }
}
