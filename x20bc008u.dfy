/** The B&R X20BC008U bus controller driver (drivers/industry/X20BC008U.js): one
    word of pin levels per attached I/O device, written to an output device at
    most once at a time (later changes coalesce into one follow-up write), and
    the list of devices read from the controller's node tree. The OPC-UA client
    is an environment: its connection is a client id, its answers are events. */
module X20BC008U {
  import opened Options
  import opened Bytes
  import opened Text

  /** Pin p of the word x, as `(x & (1 << p)) ? 1 : 0`: JavaScript shifts by p
      modulo 32 and tests the 32-bit pattern. */
  function Level(x: int, p: int): (r: nat)
    ensures r <= 1
    ensures r == 1 <==> BitSet(ToUInt32(x), p % 32)
  {
    if BitSet(ToUInt32(x), p % 32) then 1 else 0
  }

  /** The word x with pin p made v, as `x | (1 << p)` or `x & ~(1 << p)`, which
      give a 32-bit signed result. */
  function WithPin(x: int, p: int, v: bool): int {
    ToInt32(WithBit(ToUInt32(x), p % 32, v))
  }

  /** Setting a pin changes that pin's level to v and no other pin's level. */
  lemma WithPinLevel(x: int, p: int, v: bool, q: int)
    ensures Level(WithPin(x, p, v), q) == if q % 32 == p % 32 then (if v then 1 else 0) else Level(x, q)
  {
    var w := WithBit(ToUInt32(x), p % 32, v);
    Pow2Word();
    WithBitBound(ToUInt32(x), p % 32, v, 32);
    assert ToUInt32(WithPin(x, p, v)) == w;
    WithBitBits(ToUInt32(x), p % 32, v, q % 32);
  }

  /** A child of the controller's sub-device node. */
  datatype NodeInfo = NodeInfo(browseName: string, displayName: string, node: nat)

  datatype Device = Device(name: string, node: nat)

  /** The part of a display name after the first " | ", or all of it. */
  function DeviceName(displayName: string): (name: string)
    ensures IndexOf(displayName, " | ", 0).None? ==> name == displayName
    ensures IndexOf(displayName, " | ", 0).Some? ==>
      var pos := IndexOf(displayName, " | ", 0).value;
      displayName == displayName[..pos] + " | " + name && forall j :: 0 <= j < pos ==> !OccursAt(displayName, " | ", j)
  {
    match IndexOf(displayName, " | ", 0)
    case None => displayName
    case Some(pos) =>
      assert displayName[pos..pos + 3] == " | ";
      assert displayName == displayName[..pos] + displayName[pos..pos + 3] + displayName[pos + 3..];
      displayName[pos + 3..]
  }

  /** Where a child is listed: its browse name starts with "ST" and the number
      after it, less one, is its position (a name without a number is stored
      under NaN, which is not modelled as a position). */
  function Position(n: NodeInfo): Option<int> {
    if !StartsWith(n.browseName, "ST") then None
    else match ParseInt(n.browseName[2..], 0)
      case None => None
      case Some(k) => Some(k - 1)
  }

  /** Where a child goes in the list, and as what. */
  datatype Placed = Placed(at: Option<int>, device: Device)

  function Placing(n: NodeInfo): Placed {
    Placed(Position(n), Device(DeviceName(n.displayName), n.node))
  }

  function Placings(nodes: seq<NodeInfo>): (ps: seq<Placed>)
    ensures |ps| == |nodes| && forall i :: 0 <= i < |nodes| ==> ps[i] == Placing(nodes[i])
  {
    seq(|nodes|, i requires 0 <= i < |nodes| => Placing(nodes[i]))
  }

  /** The devices of `listDevices`, one child after the other: a later child with
      the same position replaces an earlier one. */
  function Listed(ps: seq<Placed>): map<int, Device> {
    if ps == [] then map[]
    else
      var m := Listed(ps[..|ps| - 1]);
      var p := ps[|ps| - 1];
      if p.at.Some? then m[p.at.value := p.device] else m
  }

  /** A child named "ST<k>" is listed at k - 1. */
  lemma PositionOfST(k: nat, displayName: string, node: nat)
    ensures Position(NodeInfo("ST" + NatToString(k), displayName, node)) == Some(k - 1)
  {
    var b := "ST" + NatToString(k);
    assert b[2..] == NatToString(k) + [];
    ParseIntNatToString(k, [], 0);
  }

  /** Position k holds a device exactly when some child is placed there. */
  lemma {:induction false} ListedDomain(ps: seq<Placed>, k: int)
    ensures k in Listed(ps) <==> exists i :: 0 <= i < |ps| && ps[i].at == Some(k)
  {
    if ps != [] {
      var p := ps[..|ps| - 1];
      ListedDomain(p, k);
      if k in Listed(p) {
        var i :| 0 <= i < |p| && p[i].at == Some(k);
        assert ps[i] == p[i];
      } else if k !in Listed(ps) {
        forall i | 0 <= i < |ps| ensures ps[i].at != Some(k) {
          if i < |p| {
            assert ps[i] == p[i];
          }
        }
      }
    }
  }

  /** The device at a position is that of the last child placed there: a child
      placed at k is listed there unless a later one is placed there too. */
  lemma {:induction false} ListedLast(ps: seq<Placed>, i: nat)
    requires i < |ps| && ps[i].at.Some?
    requires forall j :: i < j < |ps| ==> ps[j].at != ps[i].at
    ensures ps[i].at.value in Listed(ps) && Listed(ps)[ps[i].at.value] == ps[i].device
  {
    var last := |ps| - 1;
    if i < last {
      var p := ps[..last];
      assert p[i] == ps[i];
      ListedLast(p, i);
    }
  }

  /** The loop of `listDevices` over the children. */
  method ListDevices(nodes: seq<NodeInfo>) returns (devices: map<int, Device>)
    ensures devices == Listed(Placings(nodes))
  {
    ghost var ps := Placings(nodes);
    devices := map[];
    var i := 0;
    while i < |nodes|
      invariant 0 <= i <= |nodes|
      invariant devices == Listed(ps[..i])
    {
      var n := nodes[i];
      assert ps[..i + 1][..i] == ps[..i] && ps[i] == Placing(n);
      var at := Position(n);
      if at.Some? {
        devices := devices[at.value := Device(DeviceName(n.displayName), n.node)];
      }
      i := i + 1;
    }
    assert ps[..i] == ps;
  }

  /** The set-up an attached device needs, by the first five letters of its name. */
  datatype Setup = OutputSetup(index: nat, node: nat) | InputSetup(index: nat, node: nat)

  function SetupOf(i: nat, d: Device): seq<Setup> {
    if StartsWith(d.name, "X20DO") then [OutputSetup(i, d.node)]
    else if StartsWith(d.name, "X20DI") then [InputSetup(i, d.node)]
    else []
  }

  function Setups(devices: seq<Device>): (r: seq<Setup>)
    ensures forall j :: 0 <= j < |r| ==> r[j].index < |devices|
  {
    if devices == [] then []
    else Setups(devices[..|devices| - 1]) + SetupOf(|devices| - 1, devices[|devices| - 1])
  }

  /** m is m0 with the words from `from` up to `to` (excluded) pushed as 0. */
  ghost predicate Pushed(m0: map<nat, int>, m: map<nat, int>, from: nat, to: nat) {
    && from <= to
    && (forall d: nat :: from <= d < to ==> d in m && m[d] == 0)
    && (forall d: nat :: d < from ==> (d in m <==> d in m0))
    && (forall d: nat :: d < from && d in m ==> m[d] == m0[d])
  }

  lemma PushZero(m0: map<nat, int>, m: map<nat, int>, from: nat, to: nat)
    requires Pushed(m0, m, from, to)
    ensures Pushed(m0, m[to := 0], from, to + 1)
  {
  }

  /** Listing one device more adds its set-up, if any, at the end. */
  lemma SetupsStep(devices: seq<Device>, i: nat)
    requires i < |devices|
    ensures Setups(devices[..i + 1]) == Setups(devices[..i]) + SetupOf(i, devices[i])
  {
    assert devices[..i + 1][..i] == devices[..i];
  }

  /** Device i is set up as an output exactly when its name starts with "X20DO",
      and as an input exactly when it starts with "X20DI", on its own node. */
  lemma {:induction false} SetupsOf(devices: seq<Device>, s: Setup)
    ensures s in Setups(devices) <==>
      && s.index < |devices| && s.node == devices[s.index].node
      && (if s.OutputSetup? then StartsWith(devices[s.index].name, "X20DO")
          else StartsWith(devices[s.index].name, "X20DI"))
  {
    if devices != [] {
      var last := |devices| - 1;
      var p := devices[..last];
      SetupsOf(p, s);
      if s.index < last {
        assert devices[s.index] == p[s.index];
      }
    }
  }

  /** One write of a device's word, through the client it was issued on. */
  datatype Write = Write(device: nat, value: Option<int>, client: nat)

  class Controller {
    /** `mVals`, with its length. */
    var vals: map<nat, int>
    var length: nat
    /** `mInputNodes`: input node to device. */
    var inputNodes: map<nat, nat>
    /** `mOutputNodes`: device to output node. */
    var outputNodes: map<nat, nat>
    /** `mWriteDeviceStatus`: 1 while a write is out, 2 if another is due after it. */
    var status: map<nat, nat>
    /** `mClient`. */
    var client: Option<nat>
    /** The writes issued, in order. */
    var writes: seq<Write>

    ghost predicate Valid()
      reads this
    {
      forall d :: d in vals ==> d < length
    }

    function StatusOf(d: nat): nat
      reads this
    {
      if d in status then status[d] else 0
    }

    /** `this.mVals[d]`, which is undefined past the devices. */
    function Word(d: nat): Option<int>
      reads this
    {
      if d in vals then Some(vals[d]) else None
    }

    /** What the bit operators read from `mVals[d]`: undefined counts as 0. */
    function WordOr0(d: nat): int
      reads this
    {
      if d in vals then vals[d] else 0
    }

    constructor ()
      ensures Valid() && client.None? && vals == map[] && length == 0
      ensures inputNodes == map[] && outputNodes == map[] && status == map[] && writes == []
    {
      vals, length, inputNodes, outputNodes, status := map[], 0, map[], map[], map[];
      client := None;
      writes := [];
    }

    /** `getLevel(d, p)`. */
    function GetLevel(d: nat, p: int): (r: nat)
      reads this
      ensures r <= 1
      ensures r == 1 <==> d in vals && BitSet(ToUInt32(vals[d]), p % 32)
    {
      BitSetZero(p % 32);
      Level(WordOr0(d), p)
    }

    /** `getLevels(d)`. */
    function GetLevels(d: nat): (r: Option<int>)
      reads this
      ensures r.Some? <==> d in vals
      ensures r.Some? ==> r.value == vals[d]
    {
      Word(d)
    }

    /** `initConnection()`: forget the devices and their words and, with a client,
        drop it (the next connection attempt is the environment's). */
    method InitConnection()
      modifies this
      ensures Valid()
      ensures vals == map[] && length == 0 && inputNodes == map[] && outputNodes == map[] && status == map[]
      ensures client.None? && writes == old(writes)
    {
      inputNodes, outputNodes, vals, length, status := map[], map[], map[], 0, map[];
      client := None;
    }

    /** A new client is created (after the Ethernet link is up). */
    method Connect(c: nat)
      requires Valid()
      modifies this
      ensures Valid()
      ensures client == Some(c)
      ensures vals == old(vals) && length == old(length) && inputNodes == old(inputNodes)
      ensures outputNodes == old(outputNodes) && status == old(status) && writes == old(writes)
    {
      client := Some(c);
    }

    /** The effect of `writeDevice(d)` on the write status and the writes. */
    twostate predicate Wrote(d: nat)
      reads this
    {
      && (d !in outputNodes || client.None? ==> status == old(status) && writes == old(writes))
      && (d in outputNodes && client.Some? && old(StatusOf(d)) != 0 ==>
            status == old(status)[d := 2] && writes == old(writes))
      && (d in outputNodes && client.Some? && old(StatusOf(d)) == 0 ==>
            status == old(status)[d := 1] && writes == old(writes) + [Write(d, Word(d), client.value)])
    }

    /** `writeDevice(d)`: nothing without an output node or a client; while a
        write is out, only mark that another is due; else write the current word. */
    method WriteDevice(d: nat)
      requires Valid()
      modifies this
      ensures Valid()
      ensures vals == old(vals) && length == old(length) && inputNodes == old(inputNodes)
      ensures outputNodes == old(outputNodes) && client == old(client)
      ensures Wrote(d)
    {
      if d !in outputNodes || client.None? {
        return;
      }
      if StatusOf(d) != 0 {
        status := status[d := 2];
        return;
      }
      status := status[d := 1];
      writes := writes + [Write(d, Word(d), client.value)];
    }

    /** `mVals[d] = x`, which extends the array past its end. */
    method Store(d: nat, x: int)
      requires Valid()
      modifies this
      ensures Valid()
      ensures vals == old(vals)[d := x] && length == if d < old(length) then old(length) else d + 1
      ensures inputNodes == old(inputNodes) && outputNodes == old(outputNodes)
      ensures status == old(status) && client == old(client) && writes == old(writes)
    {
      vals := vals[d := x];
      if d >= length {
        length := d + 1;
      }
    }

    /** `setLevel(d, p, v)`: pin p of device d becomes v, no other pin or device
        changes, and the word is written. */
    method SetLevel(d: nat, p: int, v: bool)
      requires Valid()
      modifies this
      ensures Valid()
      ensures d in vals && vals == old(vals)[d := WithPin(old(WordOr0(d)), p, v)]
      ensures GetLevel(d, p) == if v then 1 else 0
      ensures forall q :: q % 32 != p % 32 ==> GetLevel(d, q) == old(GetLevel(d, q))
      ensures forall e, q :: e != d ==> GetLevel(e, q) == old(GetLevel(e, q))
      ensures length == if d < old(length) then old(length) else d + 1
      ensures inputNodes == old(inputNodes) && outputNodes == old(outputNodes) && client == old(client)
      ensures Wrote(d)
    {
      var x := WordOr0(d);
      Store(d, WithPin(x, p, v));
      WriteDevice(d);
      WithPinLevel(x, p, v, p);
      forall q | q % 32 != p % 32
        ensures GetLevel(d, q) == old(GetLevel(d, q))
      {
        WithPinLevel(x, p, v, q);
      }
    }

    /** `setLevels(d, x)`: the whole word is replaced and written. */
    method SetLevels(d: nat, x: int)
      requires Valid()
      modifies this
      ensures Valid()
      ensures vals == old(vals)[d := x]
      ensures length == if d < old(length) then old(length) else d + 1
      ensures inputNodes == old(inputNodes) && outputNodes == old(outputNodes) && client == old(client)
      ensures Wrote(d)
    {
      Store(d, x);
      WriteDevice(d);
    }

    /** A write of client c for device d ends. A stale client's answer is dropped;
        an error starts over; else the status clears and, if another write was
        due, exactly one follow-up write of the current word is issued. */
    method WriteDone(d: nat, c: nat, failed: bool)
      requires Valid()
      modifies this
      ensures Valid()
      ensures old(client) != Some(c) ==> unchanged(this)
      ensures old(client) == Some(c) && failed ==>
        && vals == map[] && length == 0 && inputNodes == map[] && outputNodes == map[] && status == map[]
        && client.None? && writes == old(writes)
      ensures old(client) == Some(c) && !failed ==>
        && vals == old(vals) && length == old(length) && inputNodes == old(inputNodes) && outputNodes == old(outputNodes)
        && client == old(client)
        && (old(StatusOf(d)) == 2 && d in outputNodes ==>
              status == old(status)[d := 1] && writes == old(writes) + [Write(d, Word(d), c)])
        && (old(StatusOf(d)) != 2 || d !in outputNodes ==>
              status == old(status)[d := 0] && writes == old(writes))
    {
      if client != Some(c) {
        return;
      }
      if failed {
        InitConnection();
        return;
      }
      var redo := StatusOf(d) == 2;
      status := status[d := 0];
      if redo {
        WriteDevice(d);
      }
    }

    /** The output node of device `index` is found: it is stored, the device is
        idle, and its word is written. This step does not check the client. */
    method OutputReady(index: nat, node: nat)
      requires Valid()
      modifies this
      ensures Valid()
      ensures outputNodes == old(outputNodes)[index := node]
      ensures vals == old(vals) && length == old(length) && inputNodes == old(inputNodes) && client == old(client)
      ensures client.None? ==> status == old(status)[index := 0] && writes == old(writes)
      ensures client.Some? ==>
        status == old(status)[index := 1] && writes == old(writes) + [Write(index, Word(index), client.value)]
    {
      outputNodes := outputNodes[index := node];
      status := status[index := 0];
      WriteDevice(index);
    }

    /** The input node of device `index` is subscribed on client c. */
    method InputReady(index: nat, node: nat, c: nat)
      requires Valid()
      modifies this
      ensures Valid()
      ensures inputNodes == if old(client) == Some(c) then old(inputNodes)[node := index] else old(inputNodes)
      ensures vals == old(vals) && length == old(length) && outputNodes == old(outputNodes) && status == old(status)
      ensures client == old(client) && writes == old(writes)
    {
      if client == Some(c) {
        inputNodes := inputNodes[node := index];
      }
    }

    /** `dataChanged(node, val)`: a number on a subscribed input node becomes its
        device's word and is emitted as an 'input' event; anything else is
        dropped. */
    method DataChanged(node: nat, val: Option<int>) returns (input: Option<(nat, int)>)
      requires Valid()
      modifies this
      ensures Valid()
      ensures val.Some? && node in inputNodes ==>
        && input == Some((inputNodes[node], val.value)) && vals == old(vals)[inputNodes[node] := val.value]
        && length == if inputNodes[node] < old(length) then old(length) else inputNodes[node] + 1
      ensures val.None? || node !in inputNodes ==> input.None? && vals == old(vals) && length == old(length)
      ensures inputNodes == old(inputNodes) && outputNodes == old(outputNodes)
      ensures status == old(status) && client == old(client) && writes == old(writes)
    {
      input := None;
      if val.None? {
        return;
      }
      if node in inputNodes {
        var d := inputNodes[node];
        Store(d, val.value);
        input := Some((d, val.value));
      }
    }

    /** The device list of client c arrives: each device gets a word of 0 and,
        by its name, an output or input set-up. */
    method DevicesListed(c: nat, devices: seq<Device>) returns (setups: seq<Setup>)
      requires Valid()
      modifies this
      ensures Valid()
      ensures old(client) != Some(c) ==> unchanged(this) && setups == []
      ensures old(client) == Some(c) ==>
        && setups == Setups(devices) && length == old(length) + |devices|
        && (forall d: nat :: old(length) <= d < length ==> Word(d) == Some(0))
        && (forall d: nat :: d < old(length) ==> Word(d) == old(Word(d)))
      ensures inputNodes == old(inputNodes) && outputNodes == old(outputNodes)
      ensures status == old(status) && client == old(client) && writes == old(writes)
    {
      setups := [];
      if client != Some(c) {
        return;
      }
      var i := 0;
      while i < |devices|
        invariant 0 <= i <= |devices| && Valid()
        invariant length == old(length) + i
        invariant Pushed(old(vals), vals, old(length), length)
        invariant setups == Setups(devices[..i])
        invariant inputNodes == old(inputNodes) && outputNodes == old(outputNodes)
        invariant status == old(status) && client == old(client) && writes == old(writes)
      {
        SetupsStep(devices, i);
        PushZero(old(vals), vals, old(length), length);
        Store(length, 0);
        setups := setups + SetupOf(i, devices[i]);
        i := i + 1;
      }
      assert devices[..i] == devices;
    }
  }

  /** A controller whose only device is an idle output device 0 on client 1, with
      word 0 written. */
  method OneOutput() returns (x: Controller)
    ensures fresh(x) && x.Valid() && x.client == Some(1)
    ensures x.vals == map[0 := 0] && 0 in x.outputNodes && x.status == map[0 := 0]
  {
    x := new Controller();
    x.Connect(1);
    var setups := x.DevicesListed(1, [Device("X20DO9322", 40)]);
    assert x.length == 1 && x.Word(0) == Some(0);
    assert x.vals == map[0 := 0];
    x.OutputReady(0, 41);
    x.WriteDone(0, 1, false);
  }

  /** Changes made while a write is out coalesce: three words set in a row on an
      idle output device give the first write and, once it is done, one more
      with the latest word. */
  method CoalescedWrites() returns (writes: seq<Write>)
    ensures writes == [Write(0, Some(5), 1), Write(0, Some(7), 1)]
  {
    var x := OneOutput();
    var before := |x.writes|;
    x.SetLevels(0, 5);
    x.SetLevels(0, 6);
    x.SetLevels(0, 7);
    x.WriteDone(0, 1, false);
    writes := x.writes[before..];
  }
}
