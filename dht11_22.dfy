/** The DHT11/DHT22 driver (drivers/sensors/dht11_22.js): a measurement waits for
    the sensor's answer pulse, then shifts one bit per falling edge into the
    accumulators, and ends after bit 40, on a pulse that is too long, or when its
    3000 ms timer expires. Edge stamps are in milliseconds. */
module Dht11_22 {
  import opened Options
  import opened DhtFrame

  /** The high pulse with which the sensor answers: longer than 0.065 ms and shorter
      than 0.1 ms. */
  predicate AnswerPulse(dur: real) {
    0.065 < dur < 0.1
  }

  /** The bit a high pulse of `dur` ms carries: 0 for 0.015 to 0.047 ms, 1 for any
      other pulse up to 0.1 ms; a longer pulse is no bit. */
  function PulseBit(dur: real): (b: Option<bool>)
    ensures b == Some(false) <==> 0.015 <= dur <= 0.047
    ensures b == Some(true) <==> dur <= 0.1 && !(0.015 <= dur <= 0.047)
    ensures b.None? <==> dur > 0.1
  {
    if 0.015 <= dur <= 0.047 then Some(false)
    else if dur <= 0.1 then Some(true)
    else None
  }

  /** The repeat delay `start` stores: 1000 ms unless one is given. */
  function StartDelay(waitMs: Option<int>): (d: int)
    ensures waitMs.None? ==> d == 1000
    ensures waitMs.Some? ==> d == waitMs.value
  {
    if waitMs.None? then 1000 else waitMs.value
  }

  class Sensor {
    /** `_callback`: the pending measurement's callback, by id. */
    var callback: Option<nat>
    /** `_againMS`: the delay of a periodic measurement. */
    var againMs: Option<int>
    /** `_riseStamp`: when the data line last rose. */
    var riseStamp: Option<real>
    /** `_n`: bits received, none while the answer pulse is awaited. */
    var n: Option<nat>
    var hum: nat
    var temp: nat
    var check: nat
    /** The bits received in this measurement. */
    ghost var bits: seq<bool>

    /** While a measurement is pending, the accumulators hold the bits received. */
    ghost predicate Valid()
      reads this
    {
      callback.Some? ==>
        && (n.None? ==> bits == [] && hum == 0 && temp == 0 && check == 0)
        && (n.Some? ==> n.value == |bits| < 40 && Frame(hum, temp, check) == Accumulate(bits))
    }

    constructor ()
      ensures Valid() && callback.None? && againMs.None? && riseStamp.None?
      ensures n.None? && hum == 0 && temp == 0 && check == 0 && bits == []
    {
      callback, againMs, riseStamp, n := None, None, None, None;
      hum, temp, check := 0, 0, 0;
      bits := [];
    }

    /** `measure(callback)`: refused while one is pending; otherwise it forgets the
        rise stamp, awaits the answer and clears the accumulators. */
    method Measure(cb: nat) returns (err: Option<string>)
      requires Valid()
      modifies this
      ensures Valid()
      ensures old(callback).Some? ==> err == Some(ALREADY_MEASURING) && unchanged(this)
      ensures old(callback).None? ==>
        && err.None? && callback == Some(cb) && againMs == old(againMs)
        && riseStamp.None? && n.None? && hum == 0 && temp == 0 && check == 0 && bits == []
    {
      if callback.Some? {
        return Some(ALREADY_MEASURING);
      }
      callback := Some(cb);
      riseStamp := None;
      n := None;
      hum, temp, check := 0, 0, 0;
      bits := [];
      err := None;
    }

    /** `start(callback, waitMS = 1000)`: a periodic measurement. */
    method Start(cb: nat, waitMs: Option<int>) returns (err: Option<string>)
      requires Valid()
      modifies this
      ensures Valid()
      ensures old(callback).Some? ==> err == Some(ALREADY_MEASURING) && unchanged(this)
      ensures old(callback).None? ==>
        && err.None? && callback == Some(cb) && againMs == Some(StartDelay(waitMs))
        && riseStamp.None? && n.None? && hum == 0 && temp == 0 && check == 0 && bits == []
    {
      if callback.Some? {
        return Some(ALREADY_MEASURING);
      }
      againMs := Some(StartDelay(waitMs));
      err := Measure(cb);
    }

    /** `stop()`: no repeat, and no pending measurement (its timer is cleared). */
    method Stop()
      requires Valid()
      modifies this
      ensures Valid()
      ensures callback.None? && againMs.None?
      ensures riseStamp == old(riseStamp) && n == old(n) && bits == old(bits)
      ensures hum == old(hum) && temp == old(temp) && check == old(check)
    {
      againMs := None;
      if callback.Some? {
        callback := None;
      }
    }

    /** A rising edge is stamped only while a measurement is pending. */
    method Rise(stamp: real)
      requires Valid()
      modifies this
      ensures Valid()
      ensures riseStamp == if old(callback).Some? then Some(stamp) else old(riseStamp)
      ensures callback == old(callback) && againMs == old(againMs) && n == old(n) && bits == old(bits)
      ensures hum == old(hum) && temp == old(temp) && check == old(check)
    {
      if callback.Some? {
        riseStamp := Some(stamp);
      }
    }

    /** A falling edge ends a high pulse. It counts only while a measurement is
        pending and a rise is stamped, and it uses up the stamp. Before the answer
        only the answer pulse starts the count; then each pulse is the next bit, or,
        if too long, ends the measurement with "wrong signal"; bit 40 ends it with
        the decoded reading. */
    method Fall(stamp: real) returns (done: Option<Completion>)
      requires Valid()
      modifies this
      ensures Valid()
      ensures old(callback).None? || old(riseStamp).None? ==> unchanged(this) && done.None?
      ensures old(callback).Some? && old(riseStamp).Some? ==>
        var dur := stamp - old(riseStamp).value;
        && riseStamp.None? && againMs == old(againMs)
        && (old(n).None? ==>
              && done.None? && callback == old(callback) && bits == []
              && n == (if AnswerPulse(dur) then Some(0) else None)
              && hum == old(hum) && temp == old(temp) && check == old(check))
        && (old(n).Some? ==>
              && n == Some(old(n).value + 1)
              && (PulseBit(dur).None? ==>
                    && callback.None? && bits == old(bits) && hum == old(hum) && temp == old(temp) && check == old(check)
                    && done == Some(Completion(old(callback).value, Failed(WRONG_SIGNAL), old(againMs))))
              && (PulseBit(dur).Some? ==>
                    && bits == old(bits) + [PulseBit(dur).value]
                    && Frame(hum, temp, check) == Accumulate(bits)
                    && (|bits| < 40 ==> done.None? && callback == old(callback))
                    && (|bits| == 40 ==>
                          && callback.None?
                          && done == Some(Completion(old(callback).value, Decode(bits), old(againMs))))))
    {
      done := None;
      if callback.Some? && riseStamp.Some? {
        var dur := stamp - riseStamp.value;
        riseStamp := None;
        if n.None? {
          if AnswerPulse(dur) {
            n := Some(0);
          }
          return;
        }
        var k := n.value + 1;
        n := Some(k);
        var b := PulseBit(dur);
        if b.None? {
          var cb := callback.value;
          callback := None;
          done := Some(Completion(cb, Failed(WRONG_SIGNAL), againMs));
          return;
        }
        var f := Shift(Frame(hum, temp, check), k, b.value);
        hum, temp, check := f.hum, f.temp, f.check;
        bits := bits + [b.value];
        assert bits[..|bits| - 1] == old(bits);
        if k == 40 {
          var cb := callback.value;
          callback := None;
          done := Some(Completion(cb, Finish(f), againMs));
        }
      }
    }

    /** The 3000 ms timer of a pending measurement fires: "not connected". */
    method Expire() returns (done: Option<Completion>)
      requires Valid()
      modifies this
      ensures Valid()
      ensures old(callback).None? ==> unchanged(this) && done.None?
      ensures old(callback).Some? ==>
        && callback.None? && done == Some(Completion(old(callback).value, Failed(NOT_CONNECTED), againMs))
        && againMs == old(againMs) && riseStamp == old(riseStamp) && n == old(n) && bits == old(bits)
        && hum == old(hum) && temp == old(temp) && check == old(check)
    {
      done := None;
      if callback.Some? {
        var cb := callback.value;
        callback := None;
        done := Some(Completion(cb, Failed(NOT_CONNECTED), againMs));
      }
    }
  }

  /** A sensor that answers with well-timed pulses (0.08 ms for the answer, 0.03 ms
      for a 0 and 0.07 ms for a 1) for a temperature and a humidity hands exactly
      that reading to the callback, after the 40th bit. */
  method ReadAnswer(temp: int, hum: int) returns (done: Option<Completion>)
    requires -0x8000 < temp < 0x8000 && -0x8000 < hum < 0x8000
    ensures done == Some(Completion(7, Measured(temp, hum), None))
  {
    var s := new Sensor();
    var err := s.Measure(7);
    s.Rise(0.0);
    done := s.Fall(0.08);
    var sent := Encode(temp, hum);
    var i := 0;
    while i < 40
      invariant 0 <= i <= 40 && s.Valid() && s.againMs.None?
      invariant i < 40 ==> done.None? && s.callback == Some(7) && s.n == Some(i) && s.bits == sent[..i]
      invariant i == 40 ==> done == Some(Completion(7, Decode(sent), None))
    {
      assert sent[..i + 1] == sent[..i] + [sent[i]];
      var t := (2 * i + 1) as real;
      var width := if sent[i] then 0.07 else 0.03;
      assert PulseBit(t + width - t) == Some(sent[i]);
      s.Rise(t);
      done := s.Fall(t + width);
      i := i + 1;
    }
    EncodeDecode(temp, hum);
  }
}
