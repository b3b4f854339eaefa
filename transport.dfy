/**
 * The HID transport the driver consumes (`github.com/platinummonkey/hid`),
 * which is not part of this model.  An open handle is a scripted device:
 * each call takes the next scripted reply and is appended to a call log,
 * so what the driver sent, and how many times, can be stated exactly.
 */
module Transport {
  import opened Wrappers

  /** One answer: the byte count reported, an error or none, and the bytes written into the caller's buffer. */
  datatype Reply = Reply(count: int, err: Option<string>, data: seq<bv8>)

  /** What a handle whose script has run out answers: an error and no bytes. */
  const Exhausted := Reply(0, Some("no reply"), [])

  function Head(rs: seq<Reply>): Reply { if rs == [] then Exhausted else rs[0] }
  function Rest(rs: seq<Reply>): seq<Reply> { if rs == [] then [] else rs[1..] }

  /** The reply the `k`-th call from now receives. */
  function Nth(rs: seq<Reply>, k: nat): (r: Reply)
    ensures k == 0 ==> r == Head(rs)
  {
    if k < |rs| then rs[k] else Exhausted
  }

  lemma NthRest(rs: seq<Reply>, k: nat)
    ensures Nth(Rest(rs), k) == Nth(rs, k + 1)
  {
  }

  /** The caller's buffer after the device has written `data` over its front. */
  function Fill(buf: seq<bv8>, data: seq<bv8>): (r: seq<bv8>)
    ensures |r| == |buf|
  {
    if |data| >= |buf| then data[..|buf|] else data + buf[|data|..]
  }

  /** The device's bytes cover the front of the buffer, as far as they reach; the rest is the caller's. */
  lemma FillAt(buf: seq<bv8>, data: seq<bv8>, i: nat)
    requires i < |buf|
    ensures Fill(buf, data)[i] == if i < |data| then data[i] else buf[i]
  {
  }

  /** A transfer never reports more bytes than the buffer it was handed. */
  function Reported(count: int, capacity: nat): (n: int)
    ensures n <= capacity
    ensures count <= capacity ==> n == count
    ensures count >= capacity ==> n == capacity
  {
    if count > capacity then capacity else count
  }

  /** A call as the device sees it. */
  datatype Call = FeatureCall(buf: seq<bv8>) | ReadCall(capacity: nat) | WriteCall(data: seq<bv8>) | CloseCall

  /** An open HID handle (Go `*hid.Device`). */
  class Device {
    var replies: seq<Reply>
    var calls: seq<Call>

    constructor (script: seq<Reply>)
      ensures replies == script && calls == []
    {
      replies := script;
      calls := [];
    }

    method GetFeatureReport(buf: seq<bv8>) returns (n: int, err: Option<string>, filled: seq<bv8>)
      modifies this
      ensures var r := Head(old(replies));
              n == Reported(r.count, |buf|) && err == r.err && filled == Fill(buf, r.data)
      ensures replies == Rest(old(replies)) && calls == old(calls) + [FeatureCall(buf)]
    {
      var r := Head(replies);
      n, err, filled := Reported(r.count, |buf|), r.err, Fill(buf, r.data);
      replies, calls := Rest(replies), calls + [FeatureCall(buf)];
    }

    method Read(buf: seq<bv8>) returns (n: int, err: Option<string>, filled: seq<bv8>)
      modifies this
      ensures var r := Head(old(replies));
              n == Reported(r.count, |buf|) && err == r.err && filled == Fill(buf, r.data)
      ensures replies == Rest(old(replies)) && calls == old(calls) + [ReadCall(|buf|)]
    {
      var r := Head(replies);
      n, err, filled := Reported(r.count, |buf|), r.err, Fill(buf, r.data);
      replies, calls := Rest(replies), calls + [ReadCall(|buf|)];
    }

    method Write(data: seq<bv8>) returns (n: int, err: Option<string>)
      modifies this
      ensures var r := Head(old(replies));
              n == Reported(r.count, |data|) && err == r.err
      ensures replies == Rest(old(replies)) && calls == old(calls) + [WriteCall(data)]
    {
      var r := Head(replies);
      n, err := Reported(r.count, |data|), r.err;
      replies, calls := Rest(replies), calls + [WriteCall(data)];
    }

    method Close() returns (err: Option<string>)
      modifies this
      ensures err == Head(old(replies)).err
      ensures replies == Rest(old(replies)) && calls == old(calls) + [CloseCall]
    {
      err := Head(replies).err;
      replies, calls := Rest(replies), calls + [CloseCall];
    }
  }

  /** What opening an enumerated device gives: a handle, or the error. */
  datatype OpenResult = Opened(handle: Device) | OpenFailed(msg: string)

  /**
   * An enumerated device (Go `hid.DeviceInfo`), reduced to the fields the
   * driver consults, with the outcome its `Open` would have.
   */
  datatype DeviceInfo = DeviceInfo(path: string, iface: int, usage: bv16, open: OpenResult)
}
