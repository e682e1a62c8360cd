/** The transport wrapper that stands between the SDK executor and a device
    (`Cancellable` in src/api/jobs.rs). */
module Transports {
  import opened Machine
  import Service

  datatype Reply = Passed(ok: bool) | Cancelled

  /** A device connection: what it has been asked to do, and how long it paused. */
  class Device {
    var calls: seq<Call>
    var paused: nat

    constructor ()
      ensures calls == [] && paused == 0
    {
      calls, paused := [], 0;
    }

    /** `ok` is the device's own answer. */
    method Perform(call: Call, ok: bool) returns (reply: Reply)
      modifies `calls
      ensures calls == old(calls) + [call] && reply == Passed(ok)
    {
      calls := calls + [call];
      reply := Passed(ok);
    }

    method Delay(milliseconds: nat)
      modifies `paused
      ensures paused == old(paused) + milliseconds
    {
      paused := paused + milliseconds;
    }
  }

  class Cancellable {
    const inner: Device
    const cancel: Service.Flag

    constructor (inner: Device, cancel: Service.Flag)
      ensures this.inner == inner && this.cancel == cancel
    {
      this.inner, this.cancel := inner, cancel;
    }

    /** Someone else may raise the flag between its check and the device's call. */
    method Race(raced: bool)
      modifies cancel
      ensures cancel.raised == (old(cancel.raised) || raced)
    {
      if raced {
        cancel.raised := true;
      }
    }

    method SubscribeNotifications(ok: bool, raced: bool) returns (reply: Reply)
      modifies inner`calls, cancel
      ensures reply == if old(cancel.raised) then Cancelled else Passed(ok)
      ensures inner.calls == if old(cancel.raised) then old(inner.calls) else old(inner.calls) + [Subscribe]
      ensures cancel.raised == (old(cancel.raised) || raced)
    {
      if cancel.raised {
        return Cancelled;
      }
      Race(raced);
      reply := inner.Perform(Subscribe, ok);
    }

    method WriteBytes(bytes: seq<int>, ok: bool, raced: bool) returns (reply: Reply)
      modifies inner`calls, cancel
      ensures reply == if old(cancel.raised) then Cancelled else Passed(ok)
      ensures inner.calls == if old(cancel.raised) then old(inner.calls) else old(inner.calls) + [Write(bytes)]
      ensures cancel.raised == (old(cancel.raised) || raced)
    {
      if cancel.raised {
        return Cancelled;
      }
      Race(raced);
      reply := inner.Perform(Write(bytes), ok);
    }

    method WaitResponse(ok: bool, raced: bool) returns (reply: Reply)
      modifies inner`calls, cancel
      ensures reply == if old(cancel.raised) then Cancelled else Passed(ok)
      ensures inner.calls == if old(cancel.raised) then old(inner.calls) else old(inner.calls) + [Wait]
      ensures cancel.raised == (old(cancel.raised) || raced)
    {
      if cancel.raised {
        return Cancelled;
      }
      Race(raced);
      reply := inner.Perform(Wait, ok);
    }

    /** Pauses pass whether or not the job is cancelled. */
    method DelayMonotonic(milliseconds: nat)
      modifies inner`paused
      ensures inner.paused == old(inner.paused) + milliseconds
    {
      inner.Delay(milliseconds);
    }
  }

  /** How many calls of a script reach the device when the flag is raised before
      call `raiseAt`, or during it. */
  function Reaching(length: nat, raiseAt: nat, during: bool): (n: nat)
    ensures n <= length
  {
    var n := raiseAt + if during then 1 else 0;
    if n < length then n else length
  }

  /** Any driver: it makes the calls of `script` in order, and someone else raises
      the flag before call `raiseAt` or while that call is under way.  Exactly the
      calls that had passed their check reach the device, however the driver goes on. */
  method Drive(target: Cancellable, script: seq<Call>, answers: seq<bool>, raiseAt: nat, during: bool)
    requires |answers| == |script| && !target.cancel.raised
    modifies target.inner`calls, target.cancel
    ensures target.inner.calls == old(target.inner.calls) + script[..Reaching(|script|, raiseAt, during)]
    ensures target.cancel.raised == (raiseAt < |script|)
  {
    for i := 0 to |script|
      invariant target.cancel.raised == (raiseAt < i)
      invariant target.inner.calls == old(target.inner.calls) + script[..Reaching(i, raiseAt, during)]
    {
      if i == raiseAt && !during {
        target.cancel.raised := true;
      }
      var raced := i == raiseAt && during;
      var reply: Reply;
      match script[i] {
        case Write(bytes) => reply := target.WriteBytes(bytes, answers[i], raced);
        case Subscribe => reply := target.SubscribeNotifications(answers[i], raced);
        case Wait => reply := target.WaitResponse(answers[i], raced);
      }
    }
  }
}
