/** The DHT11 driver variant (drivers/sensors/dht11.js): the first falling edge
    of a measurement is taken as the sensor's answer whatever its length, the next
    40 carry the bits, and a pulse of neither bit length ends the measurement.
    Edge stamps are in milliseconds. */
module Dht11 {
  import opened Options
  import opened DhtFrame
  import Dht11_22

  /** The bit a high pulse of `dur` ms carries: 0 for 0.015 to 0.035 ms, 1 for 0.06
      to 0.08 ms; any other pulse is no bit. */
  function PulseBit(dur: real): (b: Option<bool>)
    ensures b == Some(false) <==> 0.015 <= dur <= 0.035
    ensures b == Some(true) <==> 0.06 <= dur <= 0.08
  {
    if 0.015 <= dur <= 0.035 then Some(false)
    else if 0.06 <= dur <= 0.08 then Some(true)
    else None
  }

  /** The repeat delay `start` stores, as written: 1000 ms when none is given, and
      0 ms whatever delay is given. */
  function StartDelayAsWritten(waitMs: Option<int>): (d: int)
    ensures waitMs.None? ==> d == 1000
    ensures waitMs.Some? ==> d == 0
  {
    if waitMs.None? then 1000 else 0
  }

  /** Any delay but 0 is dropped: the repeat comes at once, not after the delay
      that `start` is documented to take (the rule of dht11_22.js). Without a delay
      both give 1000 ms. */
  lemma StartDelayIgnoresWait(w: int)
    requires w != 0
    ensures StartDelayAsWritten(Some(w)) == 0 != Dht11_22.StartDelay(Some(w))
    ensures StartDelayAsWritten(None) == Dht11_22.StartDelay(None) == 1000
  {
  }

  class Sensor {
    /** `_callback`: the pending measurement's callback, by id. */
    var callback: Option<nat>
    /** `_againMS`: the delay of a periodic measurement. */
    var againMs: Option<int>
    /** `_riseStamp`: when the data line last rose. */
    var riseStamp: Option<real>
    /** `_n`: falling edges counted, the answer included. */
    var n: nat
    var hum: nat
    var temp: nat
    var check: nat
    /** The bits received in this measurement. */
    ghost var bits: seq<bool>

    /** While a measurement is pending, the accumulators hold the bits received
        after the answer. */
    ghost predicate Valid()
      reads this
    {
      callback.Some? ==>
        && (n == 0 ==> bits == [] && hum == 0 && temp == 0 && check == 0)
        && (n > 0 ==> n == |bits| + 1 <= 40 && Frame(hum, temp, check) == Accumulate(bits))
    }

    constructor ()
      ensures Valid() && callback.None? && againMs.None? && riseStamp.None?
      ensures n == 0 && hum == 0 && temp == 0 && check == 0 && bits == []
    {
      callback, againMs, riseStamp, n := None, None, None, 0;
      hum, temp, check := 0, 0, 0;
      bits := [];
    }

    /** `measure(callback)`: refused while one is pending; otherwise it forgets the
        rise stamp and clears the counter and the accumulators. */
    method Measure(cb: nat) returns (err: Option<string>)
      requires Valid()
      modifies this
      ensures Valid()
      ensures old(callback).Some? ==> err == Some(ALREADY_MEASURING) && unchanged(this)
      ensures old(callback).None? ==>
        && err.None? && callback == Some(cb) && againMs == old(againMs)
        && riseStamp.None? && n == 0 && hum == 0 && temp == 0 && check == 0 && bits == []
    {
      if callback.Some? {
        return Some(ALREADY_MEASURING);
      }
      callback := Some(cb);
      riseStamp := None;
      n := 0;
      hum, temp, check := 0, 0, 0;
      bits := [];
      err := None;
    }

    /** `start(callback, waitMS)`: a periodic measurement, repeating after
        the documented delay, Dht11_22.StartDelay(waitMs), not the delay of
        StartDelayAsWritten. */
    method Start(cb: nat, waitMs: Option<int>) returns (err: Option<string>)
      requires Valid()
      modifies this
      ensures Valid()
      ensures old(callback).Some? ==> err == Some(ALREADY_MEASURING) && unchanged(this)
      ensures old(callback).None? ==>
        && err.None? && callback == Some(cb) && againMs == Some(Dht11_22.StartDelay(waitMs))
        && riseStamp.None? && n == 0 && hum == 0 && temp == 0 && check == 0 && bits == []
    {
      if callback.Some? {
        return Some(ALREADY_MEASURING);
      }
      againMs := Some(Dht11_22.StartDelay(waitMs));
      err := Measure(cb);
    }

    /** `stop()`: no repeat, and no pending measurement (its timer is cleared). */
    method Stop()
      requires Valid()
      modifies this
      ensures Valid()
      ensures callback.None? && againMs.None?
      ensures riseStamp == old(riseStamp) && n == old(n) && bits == old(bits)
      ensures hum == old(hum) && temp == old(temp) && check == old(check)
    {
      againMs := None;
      if callback.Some? {
        callback := None;
      }
    }

    /** A rising edge is stamped only while a measurement is pending. */
    method Rise(stamp: real)
      requires Valid()
      modifies this
      ensures Valid()
      ensures riseStamp == if old(callback).Some? then Some(stamp) else old(riseStamp)
      ensures callback == old(callback) && againMs == old(againMs) && n == old(n) && bits == old(bits)
      ensures hum == old(hum) && temp == old(temp) && check == old(check)
    {
      if callback.Some? {
        riseStamp := Some(stamp);
      }
    }

    /** A falling edge ends a high pulse. It counts only while a measurement is
        pending and a rise is stamped. The first one is the answer; each later one
        is the next bit, or, if it is neither bit length, ends the measurement with
        "wrong signal" and leaves the stamp and the counter as they were. The 41st
        edge ends the measurement with the decoded reading. */
    method Fall(stamp: real) returns (done: Option<Completion>)
      requires Valid()
      modifies this
      ensures Valid()
      ensures old(callback).None? || old(riseStamp).None? ==> unchanged(this) && done.None?
      ensures old(callback).Some? && old(riseStamp).Some? ==>
        var dur := stamp - old(riseStamp).value;
        && againMs == old(againMs)
        && (old(n) == 0 ==>
              && done.None? && callback == old(callback) && bits == [] && n == 1 && riseStamp.None?
              && hum == old(hum) && temp == old(temp) && check == old(check))
        && (old(n) > 0 && PulseBit(dur).None? ==>
              && callback.None? && riseStamp == old(riseStamp) && n == old(n) && bits == old(bits)
              && hum == old(hum) && temp == old(temp) && check == old(check)
              && done == Some(Completion(old(callback).value, Failed(WRONG_SIGNAL), old(againMs))))
        && (old(n) > 0 && PulseBit(dur).Some? ==>
              && riseStamp.None? && n == old(n) + 1
              && bits == old(bits) + [PulseBit(dur).value]
              && Frame(hum, temp, check) == Accumulate(bits)
              && (|bits| < 40 ==> done.None? && callback == old(callback))
              && (|bits| == 40 ==>
                    && callback.None?
                    && done == Some(Completion(old(callback).value, Decode(bits), old(againMs)))))
    {
      done := None;
      if callback.Some? && riseStamp.Some? {
        var dur := stamp - riseStamp.value;
        if n != 0 {
          var b := PulseBit(dur);
          if b.None? {
            var cb := callback.value;
            callback := None;
            done := Some(Completion(cb, Failed(WRONG_SIGNAL), againMs));
            return;
          }
          var f := Shift(Frame(hum, temp, check), n, b.value);
          hum, temp, check := f.hum, f.temp, f.check;
          bits := bits + [b.value];
          assert bits[..|bits| - 1] == old(bits);
        }
        riseStamp := None;
        n := n + 1;
        if n == 41 {
          var cb := callback.value;
          callback := None;
          done := Some(Completion(cb, Finish(Frame(hum, temp, check)), againMs));
        }
      }
    }

    /** The 3000 ms timer of a pending measurement fires: "not connected". */
    method Expire() returns (done: Option<Completion>)
      requires Valid()
      modifies this
      ensures Valid()
      ensures old(callback).None? ==> unchanged(this) && done.None?
      ensures old(callback).Some? ==>
        && callback.None? && done == Some(Completion(old(callback).value, Failed(NOT_CONNECTED), againMs))
        && againMs == old(againMs) && riseStamp == old(riseStamp) && n == old(n) && bits == old(bits)
        && hum == old(hum) && temp == old(temp) && check == old(check)
    {
      done := None;
      if callback.Some? {
        var cb := callback.value;
        callback := None;
        done := Some(Completion(cb, Failed(NOT_CONNECTED), againMs));
      }
    }
  }

  /** A sensor that answers with well-timed pulses (0.03 ms for a 0 and 0.07 ms for
      a 1, after an answer of any length) for a temperature and a humidity hands
      exactly that reading to the callback, at the 41st edge. */
  method ReadAnswer(temp: int, hum: int) returns (done: Option<Completion>)
    requires -0x8000 < temp < 0x8000 && -0x8000 < hum < 0x8000
    ensures done == Some(Completion(7, Measured(temp, hum), None))
  {
    var s := new Sensor();
    var err := s.Measure(7);
    s.Rise(0.0);
    done := s.Fall(0.5);
    var sent := Encode(temp, hum);
    var i := 0;
    while i < 40
      invariant 0 <= i <= 40 && s.Valid() && s.againMs.None?
      invariant i < 40 ==> done.None? && s.callback == Some(7) && s.n == i + 1 && s.bits == sent[..i]
      invariant i == 40 ==> done == Some(Completion(7, Decode(sent), None))
    {
      var t := (2 * i + 1) as real;
      s.Rise(t);
      done := s.Fall(t + if sent[i] then 0.07 else 0.03);
      assert sent[..i + 1] == sent[..i] + [sent[i]];
      i := i + 1;
    }
    EncodeDecode(temp, hum);
  }
}
