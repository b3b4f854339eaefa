/**
 * The device session of hid.go: a keyboard object holding the open handle,
 * the enumerated device it came from and an 8-bit sequence counter, and the
 * transactions it runs through the transport.
 *
 * Each operation that loops is specified by a function that follows the Go
 * loop iteration by iteration (`ReadLoop`, `WriteLoop`, `Scan`); the
 * methods are proved against those functions, and the lemmas state what
 * the functions promise.  The mutex only serialises callers and is left out.
 */
module Hid {
  import opened Wrappers
  import opened Packets
  import opened Dep
  import opened Transport

  datatype Error =
    | NoSuchDevice                  // "no such device found"
    | NoMatchingCompatibleDevice    // "no matching compatible device found"
    | NotConnected                  // "not connected"
    | MaximumRetriesExceeded        // "maximum retries exceeded"
    | Packet(packetError: PacketError)
    | TransportError(msg: string)   // an error of the HID library, passed on unchanged

  function TransportErr(e: Option<string>): (r: Option<Error>)
    ensures r.None? <==> e.None?
    ensures e.Some? ==> r == Some(TransportError(e.value))
    ensures r != Some(MaximumRetriesExceeded)
  {
    if e.Some? then Some(TransportError(e.value)) else None
  }

  /** Size of a feature report and of a raw read. */
  const MaxBufSize := 65

  /** Transport calls a raw read or write makes at most: the first and five retries. */
  const MaxAttempts := 6

  // ---------------------------------------------------------------------
  // Feature-report framing

  function Zeros(n: nat): (z: seq<bv8>)
    ensures |z| == n
  {
    seq(n, _ => 0)
  }

  /** The report before the sequence is stamped: report id, `report[1:]`, zero padding to 65 bytes. */
  function Framed(reportID: bv16, report: seq<bv8>): (buf: seq<bv8>)
    requires |report| >= 1
  {
    var base := [(reportID & 0xFF) as bv8] + report[1..];
    if |base| < MaxBufSize then base + Zeros(MaxBufSize - |base|) else base
  }

  lemma ZeroPadded(base: seq<bv8>, buf: seq<bv8>)
    requires |base| <= |buf| && buf[..|base|] == base
    requires forall i :: |base| <= i < |buf| ==> buf[i] == 0
    ensures buf == base + Zeros(|buf| - |base|)
  {
    assert buf == buf[..|base|] + buf[|base|..];
  }

  /** The buffer `FeatureReport` hands to the transport. */
  function OutgoingReport(reportID: bv16, report: seq<bv8>, sequence: bv8): (buf: seq<bv8>)
    requires |report| >= 1
    ensures |buf| == if |report| > MaxBufSize then |report| else MaxBufSize
  {
    Framed(reportID, report)[3 := sequence]
  }

  /**
   * The layout of an outgoing report: the low byte of the report id, the
   * command from its second byte on with byte 3 replaced by the sequence,
   * then zeros.
   */
  lemma OutgoingReportLayout(reportID: bv16, report: seq<bv8>, sequence: bv8)
    requires |report| >= 1
    ensures var buf := OutgoingReport(reportID, report, sequence);
            && buf[0] == (reportID & 0xFF) as bv8
            && buf[3] == sequence
            && (forall i :: 1 <= i < |report| && i != 3 ==> buf[i] == report[i])
            && (forall i :: |report| <= i < |buf| && i != 3 ==> buf[i] == 0)
  {
  }

  /** The sequence after a successful transaction: 0xFF wraps to 0x00. */
  function NextSequence(sequence: bv8): bv8
  {
    if sequence == 0xFF then 0x00 else sequence + 1
  }

  /**
   * The explicit wrap is plain byte arithmetic: the counter counts modulo
   * 256, so it never repeats on the next successful transaction.
   */
  lemma NextSequenceCounts(sequence: bv8)
    ensures NextSequence(sequence) == sequence + 1
    ensures NextSequence(sequence) as int == (sequence as int + 1) % 256
    ensures NextSequence(sequence) != sequence
  {
    if sequence != 0xFF {
      assert sequence as int < 255;
      assert (sequence + 1) as int == sequence as int + 1;
    }
  }

  /** Two commands that differ at most in byte 3 leave identical reports. */
  lemma ReportIgnoresByte3(reportID: bv16, p: seq<bv8>, q: seq<bv8>, sequence: bv8)
    requires |p| == |q| >= 1
    requires forall i :: 1 <= i < |p| && i != 3 ==> p[i] == q[i]
    ensures OutgoingReport(reportID, p, sequence) == OutgoingReport(reportID, q, sequence)
  {
    OutgoingReportLayout(reportID, p, sequence);
    OutgoingReportLayout(reportID, q, sequence);
  }

  /** The brightness level sits in byte 3, which the sequence overwrites: it never reaches the device. */
  lemma BrightnessLevelNotOnWire(a: bv8, b: bv8, sequence: bv8)
    requires a <= MaxBrightness && b <= MaxBrightness
    ensures OutgoingReport(0, BrightnessPacket(a).value, sequence) == OutgoingReport(0, BrightnessPacket(b).value, sequence)
  {
    var p, q := BrightnessPacket(a).value, BrightnessPacket(b).value;
    assert p[1] == p[..3][1] && p[2] == p[..3][2] && q[1] == q[..3][1] && q[2] == q[..3][2];
    ReportIgnoresByte3(0, p, q, sequence);
  }

  /** Freeze and trigger differ only in their opcode, byte 3: on the wire they are the same report. */
  lemma FreezeAndTriggerIdenticalOnWire(sequence: bv8)
    ensures OutgoingReport(0, FreezePacket(), sequence) == OutgoingReport(0, TriggerPacket(), sequence)
  {
    var p, q := FreezePacket(), TriggerPacket();
    assert p[1] == p[..4][1] && p[2] == p[..4][2] && q[1] == q[..4][1] && q[2] == q[..4][2];
    ReportIgnoresByte3(0, p, q, sequence);
  }

  /** A state packet's colour-channel id is byte 3 too: the three channel packets of a key look alike. */
  lemma ChannelIdNotOnWire(s: StateInfo, channel: bv8, sequence: bv8)
    ensures OutgoingReport(0, StatePacket(s), sequence) == OutgoingReport(0, StatePacket(s.(colorChannelID := channel)), sequence)
  {
    var p := StatePacket(s);
    StatePacketChannelByte(s, channel);
    ReportIgnoresByte3(0, p, p[3 := channel], sequence);
  }

  // ---------------------------------------------------------------------
  // Firmware data

  /** The fields `GetKeyboardData` reads: packet count at 2, then major, minor, patch, rc at 3 to 6. */
  function ParseFirmwareInfo(r: seq<bv8>): (info: FirmwareInfo)
    requires |r| >= 7
  {
    FirmwareInfo(majorVersion := r[3], minorVersion := r[4], patchVersion := r[5], rcVersion := r[6], packetCount := r[2])
  }

  const NoFirmwareInfo := FirmwareInfo(0, 0, 0, 0, 0)

  /**
   * When the device answers at least seven bytes, the fields are the
   * device's; otherwise the uncovered ones are read back from the request,
   * so the major version would be the sequence number just sent.
   */
  lemma FirmwareFieldsSource(data: seq<bv8>, sequence: bv8)
    ensures var buf := Fill(OutgoingReport(0, FirmwarePacket(), sequence), data);
            (|data| >= 7 ==> ParseFirmwareInfo(buf) == ParseFirmwareInfo(data))
            && (|data| <= 3 ==> ParseFirmwareInfo(buf).majorVersion == sequence)
  {
    var out := OutgoingReport(0, FirmwarePacket(), sequence);
    OutgoingReportLayout(0, FirmwarePacket(), sequence);
    FillAt(out, data, 2);
    FillAt(out, data, 3);
    FillAt(out, data, 4);
    FillAt(out, data, 5);
    FillAt(out, data, 6);
  }

  // ---------------------------------------------------------------------
  // Raw read: at most six transport reads, each into the (possibly shortened) buffer

  datatype ReadOutcome = ReadOutcome(data: seq<bv8>, err: Option<Error>, rest: seq<Reply>, log: seq<Call>)

  /**
   * The rest of Go's `Read` loop from a state of its variables: `rs` are the
   * replies still to come, `data`, `bytesRead`, `err` and `retry` the loop
   * variables.  With `strip`, a non-empty read loses its leading byte.
   */
  function ReadLoop(rs: seq<Reply>, data: seq<bv8>, bytesRead: int, err: Option<Error>, retry: nat, strip: bool): (o: ReadOutcome)
    requires retry <= MaxAttempts
    decreases MaxAttempts - retry
  {
    if bytesRead == MaxBufSize then ReadOutcome(data, err, rs, [])
    else if retry >= 1 && retry > 5 then ReadOutcome(data, Some(MaximumRetriesExceeded), rs, [])
    else
      var r := Head(rs);
      var n := Reported(r.count, |data|);
      var filled := Fill(data, r.data);
      var cut := n > 0 && strip;
      var next := ReadLoop(Rest(rs), if cut then filled[1..] else filled, if cut then n - 1 else n,
                           TransportErr(r.err), retry + 1, strip);
      next.(log := [ReadCall(|data|)] + next.log)
  }

  /** One iteration of the read loop: one transport read, logged after the calls made so far, then the rest of the loop. */
  lemma ReadLoopStep(rs: seq<Reply>, data: seq<bv8>, bytesRead: int, err: Option<Error>, retry: nat, strip: bool, calls: seq<Call>)
    requires retry < MaxAttempts && bytesRead != MaxBufSize && !(retry >= 1 && retry > 5)
    ensures var r := Head(rs);
            var n := Reported(r.count, |data|);
            var filled := Fill(data, r.data);
            var cut := n > 0 && strip;
            var next := ReadLoop(Rest(rs), if cut then filled[1..] else filled, if cut then n - 1 else n,
                                 TransportErr(r.err), retry + 1, strip);
            var o := ReadLoop(rs, data, bytesRead, err, retry, strip);
            o.data == next.data && o.err == next.err && o.rest == next.rest
            && calls + o.log == (calls + [ReadCall(|data|)]) + next.log
  {
    var r := Head(rs);
    var n := Reported(r.count, |data|);
    var filled := Fill(data, r.data);
    var cut := n > 0 && strip;
    var next := ReadLoop(Rest(rs), if cut then filled[1..] else filled, if cut then n - 1 else n,
                         TransportErr(r.err), retry + 1, strip);
    assert calls + ([ReadCall(|data|)] + next.log) == (calls + [ReadCall(|data|)]) + next.log;
  }

  /** `Read` on a connected keyboard whose handle will answer `rs`. */
  function ReadSpec(rs: seq<Reply>, strip: bool): ReadOutcome
  {
    ReadLoop(rs, Zeros(MaxBufSize), 0, None, 0, strip)
  }

  lemma {:induction false} ReadLoopBounds(rs: seq<Reply>, data: seq<bv8>, bytesRead: int, err: Option<Error>, retry: nat, strip: bool)
    requires retry <= MaxAttempts
    ensures var o := ReadLoop(rs, data, bytesRead, err, retry, strip);
            |o.log| <= MaxAttempts - retry && forall c :: c in o.log ==> c.ReadCall?
    decreases MaxAttempts - retry
  {
    if bytesRead != MaxBufSize && retry < MaxAttempts {
      var r := Head(rs);
      var n := Reported(r.count, |data|);
      var cut := n > 0 && strip;
      var data' := if cut then Fill(data, r.data)[1..] else Fill(data, r.data);
      var n' := if cut then n - 1 else n;
      if n' != MaxBufSize {
        ReadLoopBounds(Rest(rs), data', n', TransportErr(r.err), retry + 1, strip);
      }
      var next := ReadLoop(Rest(rs), data', n', TransportErr(r.err), retry + 1, strip);
      assert ReadLoop(rs, data, bytesRead, err, retry, strip) == next.(log := [ReadCall(|data|)] + next.log);
    }
  }

  /** A read makes one to six transport reads. */
  lemma ReadAttemptsBounded(rs: seq<Reply>, strip: bool)
    ensures 1 <= |ReadSpec(rs, strip).log| <= MaxAttempts
    ensures forall c :: c in ReadSpec(rs, strip).log ==> c.ReadCall?
  {
    ReadLoopBounds(rs, Zeros(MaxBufSize), 0, None, 0, strip);
  }

  /** Some read among the next `k` replies fills a whole report. */
  predicate FullReadWithin(rs: seq<Reply>, k: nat)
  {
    exists j :: 0 <= j < k && Nth(rs, j).count >= MaxBufSize
  }

  lemma {:induction false} ReadLoopSucceedsIffFull(rs: seq<Reply>, data: seq<bv8>, bytesRead: int, err: Option<Error>, retry: nat)
    requires retry <= MaxAttempts && bytesRead != MaxBufSize && |data| == MaxBufSize
    ensures var o := ReadLoop(rs, data, bytesRead, err, retry, false);
            o.err != Some(MaximumRetriesExceeded) <==> FullReadWithin(rs, MaxAttempts - retry)
    ensures var o := ReadLoop(rs, data, bytesRead, err, retry, false);
            o.err != Some(MaximumRetriesExceeded) ==> |o.data| == MaxBufSize
    decreases MaxAttempts - retry
  {
    var k := MaxAttempts - retry;
    if retry < MaxAttempts {
      var r := Head(rs);
      assert Nth(rs, 0) == r;
      if r.count >= MaxBufSize {
        assert FullReadWithin(rs, k);
      } else {
        ReadLoopSucceedsIffFull(Rest(rs), Fill(data, r.data), Reported(r.count, |data|), TransportErr(r.err), retry + 1);
        forall j | 0 <= j < k - 1 ensures Nth(Rest(rs), j) == Nth(rs, j + 1) {
          NthRest(rs, j);
        }
        if FullReadWithin(rs, k) {
          var j :| 0 <= j < k && Nth(rs, j).count >= MaxBufSize;
          assert Nth(Rest(rs), j - 1).count >= MaxBufSize;
        }
      }
    }
  }

  /**
   * Without stripping, a read ends without "maximum retries exceeded"
   * exactly when one of the first six replies reports the full 65-byte
   * report (it may still end with that reply's transport error).
   */
  lemma ReadSucceedsIffFullReport(rs: seq<Reply>)
    ensures ReadSpec(rs, false).err != Some(MaximumRetriesExceeded) <==> FullReadWithin(rs, MaxAttempts)
    ensures ReadSpec(rs, false).err != Some(MaximumRetriesExceeded) ==> |ReadSpec(rs, false).data| == MaxBufSize
  {
    ReadLoopSucceedsIffFull(rs, Zeros(MaxBufSize), 0, None, 0);
  }

  /** The replies left after `n` calls. */
  function Drop(rs: seq<Reply>, n: nat): seq<Reply>
  {
    if n <= |rs| then rs[n..] else []
  }

  lemma DropRest(rs: seq<Reply>, k: nat)
    ensures Drop(Rest(rs), k) == Drop(rs, k + 1)
  {
  }

  /** Without stripping, a reply that fills the report ends the loop with that read. */
  lemma ReadLoopFullStep(rs: seq<Reply>, data: seq<bv8>, bytesRead: int, err: Option<Error>, retry: nat)
    requires retry < MaxAttempts && bytesRead != MaxBufSize && |data| == MaxBufSize && Head(rs).count >= MaxBufSize
    ensures ReadLoop(rs, data, bytesRead, err, retry, false)
            == ReadOutcome(Fill(data, Head(rs).data), TransportErr(Head(rs).err), Rest(rs), [ReadCall(MaxBufSize)])
  {
  }

  /** Without stripping, a short reply is followed by the rest of the loop on the filled buffer. */
  lemma ReadLoopShortStep(rs: seq<Reply>, data: seq<bv8>, bytesRead: int, err: Option<Error>, retry: nat)
    requires retry < MaxAttempts && bytesRead != MaxBufSize && |data| == MaxBufSize && Head(rs).count < MaxBufSize
    ensures var next := ReadLoop(Rest(rs), Fill(data, Head(rs).data), Head(rs).count, TransportErr(Head(rs).err), retry + 1, false);
            ReadLoop(rs, data, bytesRead, err, retry, false) == next.(log := [ReadCall(MaxBufSize)] + next.log)
  {
  }

  lemma {:induction false} ReadLoopStopsAtFirstFull(rs: seq<Reply>, data: seq<bv8>, bytesRead: int, err: Option<Error>, retry: nat, k: nat)
    requires retry + k < MaxAttempts && bytesRead != MaxBufSize && |data| == MaxBufSize
    requires Nth(rs, k).count >= MaxBufSize
    requires forall j :: 0 <= j < k ==> Nth(rs, j).count < MaxBufSize
    ensures var o, r := ReadLoop(rs, data, bytesRead, err, retry, false), Nth(rs, k);
            && o.err == TransportErr(r.err)
            && o.log == seq(k + 1, _ => ReadCall(MaxBufSize))
            && o.rest == Drop(rs, k + 1)
            && |o.data| == MaxBufSize
            && (forall i :: 0 <= i < |r.data| && i < MaxBufSize ==> o.data[i] == r.data[i])
    decreases k
  {
    var r := Head(rs);
    assert Nth(rs, 0) == r;
    var filled := Fill(data, r.data);
    if k == 0 {
      ReadLoopFullStep(rs, data, bytesRead, err, retry);
      forall i | 0 <= i < |r.data| && i < MaxBufSize ensures filled[i] == r.data[i] {
        FillAt(data, r.data, i);
      }
    } else {
      ReadLoopShortStep(rs, data, bytesRead, err, retry);
      ShortRepliesShift(rs, k);
      ReadLoopStopsAtFirstFull(Rest(rs), filled, r.count, TransportErr(r.err), retry + 1, k - 1);
      ReadCallsCons(k);
    }
  }

  /** Dropping the first reply shifts the replies that come after it. */
  lemma ShortRepliesShift(rs: seq<Reply>, k: nat)
    requires 0 < k && forall j :: 0 <= j < k ==> Nth(rs, j).count < MaxBufSize
    ensures forall j :: 0 <= j < k - 1 ==> Nth(Rest(rs), j).count < MaxBufSize
    ensures Head(rs).count < MaxBufSize && Nth(Rest(rs), k - 1) == Nth(rs, k)
    ensures Drop(Rest(rs), k) == Drop(rs, k + 1)
  {
    assert Nth(rs, 0).count < MaxBufSize;
    forall j | 0 <= j < k - 1 ensures Nth(Rest(rs), j).count < MaxBufSize {
      NthRest(rs, j);
      assert Nth(rs, j + 1).count < MaxBufSize;
    }
    NthRest(rs, k - 1);
  }

  lemma ReadCallsCons(k: nat)
    ensures [ReadCall(MaxBufSize)] + seq(k, _ => ReadCall(MaxBufSize)) == seq(k + 1, _ => ReadCall(MaxBufSize))
  {
  }

  /**
   * Without stripping, a read ends at the first reply that fills the
   * report, after exactly that many transport reads: it returns that
   * reply's error (none or a transport error) and its bytes, as far as
   * they reach into the 65-byte buffer.
   */
  lemma ReadStopsAtFirstFull(rs: seq<Reply>, k: nat)
    requires k < MaxAttempts && Nth(rs, k).count >= MaxBufSize
    requires forall j :: 0 <= j < k ==> Nth(rs, j).count < MaxBufSize
    ensures var o, r := ReadSpec(rs, false), Nth(rs, k);
            && o.err == TransportErr(r.err)
            && o.log == seq(k + 1, _ => ReadCall(MaxBufSize))
            && o.rest == Drop(rs, k + 1)
            && |o.data| == MaxBufSize
            && (forall i :: 0 <= i < |r.data| && i < MaxBufSize ==> o.data[i] == r.data[i])
  {
    ReadLoopStopsAtFirstFull(rs, Zeros(MaxBufSize), 0, None, 0, k);
  }

  lemma {:induction false} StripLoopNeverFull(rs: seq<Reply>, data: seq<bv8>, bytesRead: int, err: Option<Error>, retry: nat)
    requires retry <= MaxAttempts && bytesRead != MaxBufSize && |data| <= MaxBufSize
    ensures var o := ReadLoop(rs, data, bytesRead, err, retry, true);
            o.err == Some(MaximumRetriesExceeded) && |o.log| == MaxAttempts - retry
    decreases MaxAttempts - retry
  {
    if retry < MaxAttempts {
      var r := Head(rs);
      var n := Reported(r.count, |data|);
      var filled := Fill(data, r.data);
      var data' := if n > 0 then filled[1..] else filled;
      var n' := if n > 0 then n - 1 else n;
      StripLoopNeverFull(Rest(rs), data', n', TransportErr(r.err), retry + 1);
      var next := ReadLoop(Rest(rs), data', n', TransportErr(r.err), retry + 1, true);
      assert ReadLoop(rs, data, bytesRead, err, retry, true) == next.(log := [ReadCall(|data|)] + next.log);
    }
  }

  /**
   * As written, a read that strips the leading byte can never succeed: the
   * count is taken after the strip and the buffer shrinks with each retry,
   * so it never equals 65, and every read ends after six transport reads
   * with "maximum retries exceeded", whatever the device answers.
   */
  lemma StripModeReadAlwaysFails(rs: seq<Reply>)
    ensures ReadSpec(rs, true).err == Some(MaximumRetriesExceeded)
    ensures |ReadSpec(rs, true).log| == MaxAttempts
  {
    StripLoopNeverFull(rs, Zeros(MaxBufSize), 0, None, 0);
  }

  /**
   * The read as evidently intended: the count is checked against the full
   * 65-byte buffer, and only a successful read has its leading byte removed.
   */
  function ReadFixedSpec(rs: seq<Reply>, strip: bool): ReadOutcome
  {
    var o := ReadSpec(rs, false);
    if strip && o.err != Some(MaximumRetriesExceeded) && |o.data| >= 1 then o.(data := o.data[1..]) else o
  }

  /** The intended read ends without "maximum retries exceeded" in both modes exactly when a reply reports the full report, and strips only then. */
  lemma FixedReadSucceedsIffFullReport(rs: seq<Reply>, strip: bool)
    ensures ReadFixedSpec(rs, strip).err != Some(MaximumRetriesExceeded) <==> FullReadWithin(rs, MaxAttempts)
    ensures FullReadWithin(rs, MaxAttempts) ==>
              |ReadFixedSpec(rs, strip).data| == (if strip then MaxBufSize - 1 else MaxBufSize)
    ensures !strip ==> ReadFixedSpec(rs, strip) == ReadSpec(rs, false)
  {
    ReadSucceedsIffFullReport(rs);
  }

  // ---------------------------------------------------------------------
  // Raw write: at most six attempts, ending at the first error-free one

  datatype WriteOutcome = WriteOutcome(err: Option<Error>, rest: seq<Reply>, log: seq<Call>)

  /** The rest of Go's `Write` loop from a state of its variables. */
  function WriteLoop(rs: seq<Reply>, data: seq<bv8>, bytesWritten: int, err: Option<Error>, retry: nat): (o: WriteOutcome)
    requires retry <= MaxAttempts
    decreases MaxAttempts - retry
  {
    if bytesWritten == |data| then WriteOutcome(err, rs, [])
    else if retry >= 1 && retry > 5 then WriteOutcome(Some(MaximumRetriesExceeded), rs, [])
    else
      var r := Head(rs);
      if r.err.None? then WriteOutcome(None, Rest(rs), [WriteCall(data)])
      else
        var next := WriteLoop(Rest(rs), data, Reported(r.count, |data|), TransportErr(r.err), retry + 1);
        next.(log := [WriteCall(data)] + next.log)
  }

  /**
   * One iteration of the write loop: one transport write, logged after the
   * calls made so far, then either the end of the loop or the rest of it.
   */
  lemma WriteLoopStep(rs: seq<Reply>, data: seq<bv8>, bytesWritten: int, err: Option<Error>, retry: nat, calls: seq<Call>)
    requires retry < MaxAttempts && bytesWritten != |data| && !(retry >= 1 && retry > 5)
    ensures var r := Head(rs);
            var o := WriteLoop(rs, data, bytesWritten, err, retry);
            if r.err.None? then
              o.err == None && o.rest == Rest(rs) && calls + o.log == (calls + [WriteCall(data)]) + []
            else
              var next := WriteLoop(Rest(rs), data, Reported(r.count, |data|), TransportErr(r.err), retry + 1);
              o.err == next.err && o.rest == next.rest && calls + o.log == (calls + [WriteCall(data)]) + next.log
  {
    var r := Head(rs);
    var next := WriteLoop(Rest(rs), data, Reported(r.count, |data|), TransportErr(r.err), retry + 1);
    assert calls + ([WriteCall(data)] + next.log) == (calls + [WriteCall(data)]) + next.log;
    assert calls + [WriteCall(data)] == (calls + [WriteCall(data)]) + [];
  }

  /** `Write(data)` on a connected keyboard whose handle will answer `rs`. */
  function WriteSpec(rs: seq<Reply>, data: seq<bv8>): WriteOutcome
  {
    WriteLoop(rs, data, 0, None, 0)
  }

  /** Empty data is never sent: no transport call, no error. */
  lemma WriteOfNothing(rs: seq<Reply>)
    ensures WriteSpec(rs, []) == WriteOutcome(None, rs, [])
  {
  }

  lemma {:induction false} WriteLoopBounds(rs: seq<Reply>, data: seq<bv8>, bytesWritten: int, err: Option<Error>, retry: nat)
    requires retry <= MaxAttempts
    ensures var o := WriteLoop(rs, data, bytesWritten, err, retry);
            |o.log| <= MaxAttempts - retry && forall c :: c in o.log ==> c == WriteCall(data)
    decreases MaxAttempts - retry
  {
    if bytesWritten != |data| && retry < MaxAttempts && Head(rs).err.Some? {
      var r := Head(rs);
      WriteLoopBounds(Rest(rs), data, Reported(r.count, |data|), TransportErr(r.err), retry + 1);
      var next := WriteLoop(Rest(rs), data, Reported(r.count, |data|), TransportErr(r.err), retry + 1);
      assert WriteLoop(rs, data, bytesWritten, err, retry) == next.(log := [WriteCall(data)] + next.log);
    }
  }

  /** A write of non-empty data makes one to six transport writes, each of the whole data; empty data makes none. */
  lemma WriteAttemptsBounded(rs: seq<Reply>, data: seq<bv8>)
    ensures |data| > 0 <==> 1 <= |WriteSpec(rs, data).log|
    ensures |WriteSpec(rs, data).log| <= MaxAttempts
    ensures forall c :: c in WriteSpec(rs, data).log ==> c == WriteCall(data)
  {
    WriteLoopBounds(rs, data, 0, None, 0);
  }

  /** The `k`-th reply is an error that did not report the whole data written. */
  predicate FailedShort(rs: seq<Reply>, k: nat, data: seq<bv8>)
  {
    Nth(rs, k).err.Some? && Reported(Nth(rs, k).count, |data|) != |data|
  }

  lemma {:induction false} WriteLoopStopsAtFirstSuccess(rs: seq<Reply>, data: seq<bv8>, bytesWritten: int, err: Option<Error>, retry: nat, k: nat)
    requires retry + k < MaxAttempts && bytesWritten != |data|
    requires Nth(rs, k).err.None?
    requires forall j :: 0 <= j < k ==> FailedShort(rs, j, data)
    ensures var o := WriteLoop(rs, data, bytesWritten, err, retry);
            o.err == None && o.log == seq(k + 1, _ => WriteCall(data)) && o.rest == Drop(rs, k + 1)
    decreases k
  {
    var r := Head(rs);
    assert Nth(rs, 0) == r;
    DropRest(rs, k);
    if k > 0 {
      assert FailedShort(rs, 0, data);
      forall j | 0 <= j < k - 1 ensures FailedShort(Rest(rs), j, data) {
        NthRest(rs, j);
        assert FailedShort(rs, j + 1, data);
      }
      NthRest(rs, k - 1);
      WriteLoopStopsAtFirstSuccess(Rest(rs), data, Reported(r.count, |data|), TransportErr(r.err), retry + 1, k - 1);
      var next := WriteLoop(Rest(rs), data, Reported(r.count, |data|), TransportErr(r.err), retry + 1);
      assert [WriteCall(data)] + next.log == seq(k + 1, _ => WriteCall(data));
    }
  }

  /** A write returns after the first attempt that reports no error, having made exactly that many attempts. */
  lemma WriteStopsAtFirstSuccess(rs: seq<Reply>, data: seq<bv8>, k: nat)
    requires |data| > 0 && k < MaxAttempts
    requires Nth(rs, k).err.None?
    requires forall j :: 0 <= j < k ==> FailedShort(rs, j, data)
    ensures WriteSpec(rs, data).err == None
    ensures WriteSpec(rs, data).log == seq(k + 1, _ => WriteCall(data))
    ensures WriteSpec(rs, data).rest == Drop(rs, k + 1)
  {
    WriteLoopStopsAtFirstSuccess(rs, data, 0, None, 0, k);
  }

  lemma {:induction false} WriteLoopGivesUp(rs: seq<Reply>, data: seq<bv8>, bytesWritten: int, err: Option<Error>, retry: nat)
    requires retry <= MaxAttempts && bytesWritten != |data|
    requires forall j :: 0 <= j < MaxAttempts - retry ==> FailedShort(rs, j, data)
    ensures var o := WriteLoop(rs, data, bytesWritten, err, retry);
            o.err == Some(MaximumRetriesExceeded) && o.log == seq(MaxAttempts - retry, _ => WriteCall(data))
    decreases MaxAttempts - retry
  {
    if retry < MaxAttempts {
      var r := Head(rs);
      assert FailedShort(rs, 0, data);
      forall j | 0 <= j < MaxAttempts - retry - 1 ensures FailedShort(Rest(rs), j, data) {
        NthRest(rs, j);
        assert FailedShort(rs, j + 1, data);
      }
      WriteLoopGivesUp(Rest(rs), data, Reported(r.count, |data|), TransportErr(r.err), retry + 1);
      var next := WriteLoop(Rest(rs), data, Reported(r.count, |data|), TransportErr(r.err), retry + 1);
      assert [WriteCall(data)] + next.log == seq(MaxAttempts - retry, _ => WriteCall(data));
    }
  }

  /** Six failed, short attempts end the write with "maximum retries exceeded". */
  lemma WriteGivesUpAfterSixFailures(rs: seq<Reply>, data: seq<bv8>)
    requires |data| > 0
    requires forall j :: 0 <= j < MaxAttempts ==> FailedShort(rs, j, data)
    ensures WriteSpec(rs, data).err == Some(MaximumRetriesExceeded)
    ensures WriteSpec(rs, data).log == seq(MaxAttempts, _ => WriteCall(data))
  {
    WriteLoopGivesUp(rs, data, 0, None, 0);
  }

  /**
   * A failed attempt that nevertheless reports every byte written ends the
   * loop, and the write returns that error without retrying.
   */
  lemma WriteFailedButCompleteIsFinal(rs: seq<Reply>, data: seq<bv8>)
    requires |data| > 0 && Head(rs).err.Some? && Reported(Head(rs).count, |data|) == |data|
    ensures WriteSpec(rs, data) == WriteOutcome(TransportErr(Head(rs).err), Rest(rs), [WriteCall(data)])
  {
  }

  // ---------------------------------------------------------------------
  // Connect: first match wins

  datatype ScanState = ScanState(info: Option<DeviceInfo>, device: Device?, err: Option<Error>)

  /** The selection key: HID usage in one mode, interface number in the other. */
  predicate Matches(d: DeviceInfo, byUsage: bool, deviceInterface: int, usage: bv16)
  {
    if byUsage then d.usage == usage else deviceInterface == d.iface
  }

  /** The device is one `Connect` tries to open. */
  predicate Attempted(d: DeviceInfo, byUsage: bool, deviceInterface: int, usage: bv16)
  {
    d.path != "" && Matches(d, byUsage, deviceInterface, usage)
  }

  /** The device is one `Connect` opens. */
  predicate Eligible(d: DeviceInfo, byUsage: bool, deviceInterface: int, usage: bv16)
  {
    Attempted(d, byUsage, deviceInterface, usage) && d.open.Opened?
  }

  /** The rest of Go's scan over the enumerated devices from a state of the fields it assigns. */
  function Scan(ds: seq<DeviceInfo>, byUsage: bool, deviceInterface: int, usage: bv16, st: ScanState): ScanState
    decreases |ds|
  {
    if ds == [] then st
    else
      var d := ds[0];
      if d.path == "" then Scan(ds[1..], byUsage, deviceInterface, usage, st)
      else if !Matches(d, byUsage, deviceInterface, usage) then
        Scan(ds[1..], byUsage, deviceInterface, usage, st.(info := Some(d)))
      else
        match d.open
        case Opened(h) => ScanState(Some(d), h, None)
        case OpenFailed(msg) => Scan(ds[1..], byUsage, deviceInterface, usage, ScanState(Some(d), null, Some(TransportError(msg))))
  }

  /** The scan opens the first eligible device in enumeration order and stops there. */
  lemma {:induction false} ScanFirstMatchWins(ds: seq<DeviceInfo>, byUsage: bool, deviceInterface: int, usage: bv16, st: ScanState, k: nat)
    requires k < |ds| && Eligible(ds[k], byUsage, deviceInterface, usage)
    requires forall j :: 0 <= j < k ==> !Eligible(ds[j], byUsage, deviceInterface, usage)
    ensures Scan(ds, byUsage, deviceInterface, usage, st) == ScanState(Some(ds[k]), ds[k].open.handle, None)
    decreases k
  {
    if k > 0 {
      var d := ds[0];
      assert !Eligible(d, byUsage, deviceInterface, usage);
      var st' := if d.path == "" then st
                 else if !Matches(d, byUsage, deviceInterface, usage) then st.(info := Some(d))
                 else ScanState(Some(d), null, Some(TransportError(d.open.msg)));
      forall j | 0 <= j < k - 1 ensures !Eligible(ds[1..][j], byUsage, deviceInterface, usage) {
        assert ds[1..][j] == ds[j + 1];
      }
      ScanFirstMatchWins(ds[1..], byUsage, deviceInterface, usage, st', k - 1);
    }
  }

  /** The open error of the last device `Connect` tries in `ds` that fails to open, if any. */
  function LastOpenError(ds: seq<DeviceInfo>, byUsage: bool, deviceInterface: int, usage: bv16): Option<string>
    decreases |ds|
  {
    if ds == [] then None
    else
      var later := LastOpenError(ds[1..], byUsage, deviceInterface, usage);
      if later.Some? then later
      else if Attempted(ds[0], byUsage, deviceInterface, usage) && ds[0].open.OpenFailed? then Some(ds[0].open.msg)
      else None
  }

  /**
   * With no eligible device, the handle is left as it was if no device was
   * even tried, and is null with the open error of the last device tried
   * otherwise.
   */
  lemma {:induction false} ScanWithoutEligible(ds: seq<DeviceInfo>, byUsage: bool, deviceInterface: int, usage: bv16, st: ScanState)
    requires forall j :: 0 <= j < |ds| ==> !Eligible(ds[j], byUsage, deviceInterface, usage)
    ensures var m := LastOpenError(ds, byUsage, deviceInterface, usage);
            m.Some? <==> exists j :: 0 <= j < |ds| && Attempted(ds[j], byUsage, deviceInterface, usage)
    ensures var r, m := Scan(ds, byUsage, deviceInterface, usage, st), LastOpenError(ds, byUsage, deviceInterface, usage);
            if m.Some? then r.device == null && r.err == Some(TransportError(m.value))
            else r.device == st.device && r.err == st.err
    decreases |ds|
  {
    if ds != [] {
      var d := ds[0];
      assert !Eligible(d, byUsage, deviceInterface, usage);
      var st' := if d.path == "" then st
                 else if !Matches(d, byUsage, deviceInterface, usage) then st.(info := Some(d))
                 else ScanState(Some(d), null, Some(TransportError(d.open.msg)));
      forall j | 0 <= j < |ds| - 1 ensures !Eligible(ds[1..][j], byUsage, deviceInterface, usage) {
        assert ds[1..][j] == ds[j + 1];
      }
      ScanWithoutEligible(ds[1..], byUsage, deviceInterface, usage, st');
      assert (exists j :: 0 <= j < |ds| && Attempted(ds[j], byUsage, deviceInterface, usage))
         <==> Attempted(d, byUsage, deviceInterface, usage)
              || (exists j :: 0 <= j < |ds| - 1 && Attempted(ds[1..][j], byUsage, deviceInterface, usage)) by {
        if j :| 0 <= j < |ds| && Attempted(ds[j], byUsage, deviceInterface, usage) {
          if j > 0 { assert ds[1..][j - 1] == ds[j]; }
        }
        if j :| 0 <= j < |ds| - 1 && Attempted(ds[1..][j], byUsage, deviceInterface, usage) {
          assert ds[j + 1] == ds[1..][j];
        }
      }
    }
  }

  /** The recorded device info stays unset only when it was unset and no device had a path. */
  lemma {:induction false} ScanInfo(ds: seq<DeviceInfo>, byUsage: bool, deviceInterface: int, usage: bv16, st: ScanState)
    ensures Scan(ds, byUsage, deviceInterface, usage, st).info.None?
            <==> st.info.None? && forall j :: 0 <= j < |ds| ==> ds[j].path == ""
    decreases |ds|
  {
    if ds != [] {
      var d := ds[0];
      if !(d.path != "" && Matches(d, byUsage, deviceInterface, usage) && d.open.Opened?) {
        var st' := if d.path == "" then st
                   else if !Matches(d, byUsage, deviceInterface, usage) then st.(info := Some(d))
                   else ScanState(Some(d), null, Some(TransportError(d.open.msg)));
        ScanInfo(ds[1..], byUsage, deviceInterface, usage, st');
      }
      assert (forall j :: 0 <= j < |ds| ==> ds[j].path == "")
         <==> d.path == "" && (forall j :: 0 <= j < |ds| - 1 ==> ds[1..][j].path == "") by {
        if d.path == "" && (forall j :: 0 <= j < |ds| - 1 ==> ds[1..][j].path == "") {
          forall j | 0 <= j < |ds| ensures ds[j].path == "" {
            if j > 0 { assert ds[1..][j - 1] == ds[j]; }
          }
        }
      }
    }
  }

  /** The outcome of `Connect` on a non-empty enumeration. */
  function ConnectOutcome(ds: seq<DeviceInfo>, byUsage: bool, deviceInterface: int, usage: bv16, st: ScanState): ScanState
  {
    var r := Scan(ds, byUsage, deviceInterface, usage, st);
    if r.info.None? && deviceInterface == 0 && usage == 0 then r.(err := Some(NoMatchingCompatibleDevice)) else r
  }

  /**
   * `Connect` reports success without opening anything when no device
   * matches but some device has a path: only an unset device info together
   * with zero selectors is reported as an error.
   */
  lemma ConnectWithoutMatch(ds: seq<DeviceInfo>, byUsage: bool, deviceInterface: int, usage: bv16, st: ScanState)
    requires st.err.None?
    requires forall j :: 0 <= j < |ds| ==> !Attempted(ds[j], byUsage, deviceInterface, usage)
    requires exists j :: 0 <= j < |ds| && ds[j].path != ""
    ensures ConnectOutcome(ds, byUsage, deviceInterface, usage, st).err.None?
    ensures ConnectOutcome(ds, byUsage, deviceInterface, usage, st).device == st.device
  {
    ScanWithoutEligible(ds, byUsage, deviceInterface, usage, st);
    ScanInfo(ds, byUsage, deviceInterface, usage, st);
  }

  // ---------------------------------------------------------------------
  // The keyboard

  /** A Das Keyboard gen-1 HID keyboard (Go `DefaultDasKeyboard`). */
  class DefaultDasKeyboard {
    const vendorID: bv16
    const productID: bv16
    const deviceInterface: int
    const usage: bv16
    /** Select by HID usage when connecting (the Go code does so on darwin), else by interface. */
    const selectByUsage: bool
    /** Drop the leading byte of every non-empty raw read (the Go code does so on darwin). */
    const stripLeadingReadByte: bool

    var device: Device?
    var deviceInfo: Option<DeviceInfo>
    var sequence: bv8

    constructor (vendorID: bv16, productID: bv16, deviceInterface: int, usage: bv16,
                 selectByUsage: bool, stripLeadingReadByte: bool)
      ensures this.vendorID == vendorID && this.productID == productID
      ensures this.deviceInterface == deviceInterface && this.usage == usage
      ensures this.selectByUsage == selectByUsage && this.stripLeadingReadByte == stripLeadingReadByte
      ensures device == null && deviceInfo == None && sequence == 0
    {
      this.vendorID, this.productID := vendorID, productID;
      this.deviceInterface, this.usage := deviceInterface, usage;
      this.selectByUsage, this.stripLeadingReadByte := selectByUsage, stripLeadingReadByte;
      device, deviceInfo, sequence := null, None, 0;
    }

    /**
     * Scans `devices`, the enumeration of this keyboard's vendor and
     * product ids, and opens the first device with a path that matches the
     * selection key and opens without error.
     */
    method Connect(devices: seq<DeviceInfo>) returns (err: Option<Error>)
      modifies this
      ensures sequence == old(sequence)
      ensures |devices| == 0 ==>
                err == Some(NoSuchDevice) && device == old(device) && deviceInfo == old(deviceInfo)
      ensures |devices| > 0 ==>
                ScanState(deviceInfo, device, err)
                == ConnectOutcome(devices, selectByUsage, deviceInterface, usage, ScanState(old(deviceInfo), old(device), None))
    {
      if |devices| == 0 {
        return Some(NoSuchDevice);
      }
      err := None;
      ghost var goal := Scan(devices, selectByUsage, deviceInterface, usage, ScanState(deviceInfo, device, None));
      var i := 0;
      while i < |devices|
        invariant 0 <= i <= |devices| && sequence == old(sequence)
        invariant Scan(devices[i..], selectByUsage, deviceInterface, usage, ScanState(deviceInfo, device, err)) == goal
      {
        var d := devices[i];
        assert devices[i..][1..] == devices[i + 1..];
        if d.path != "" {
          deviceInfo := Some(d);
          var matching := if selectByUsage then d.usage == usage else deviceInterface == d.iface;
          if matching {
            match d.open
            case Opened(h) =>
              device, err := h, None;
              break;
            case OpenFailed(msg) =>
              device, err := null, Some(TransportError(msg));
          }
        }
        i := i + 1;
      }
      assert ScanState(deviceInfo, device, err) == goal;
      if deviceInfo.None? && (deviceInterface == 0 && usage == 0) {
        err := Some(NoMatchingCompatibleDevice);
      }
    }

    /**
     * One feature-report transaction: frame `report`, stamp the sequence
     * into byte 3, make a single transport call and, only if it succeeds,
     * advance the sequence and return the buffer as the device filled it.
     */
    method FeatureReport(reportID: bv16, report: seq<bv8>) returns (result: seq<bv8>, err: Option<Error>)
      requires device != null && |report| >= 1
      modifies this, device
      ensures device == old(device) && deviceInfo == old(deviceInfo)
      ensures var out, r := OutgoingReport(reportID, report, old(sequence)), Head(old(device.replies));
              device.calls == old(device.calls) + [FeatureCall(out)] && device.replies == Rest(old(device.replies))
              && (r.err.Some? ==> err == TransportErr(r.err) && result == [] && sequence == old(sequence))
              && (r.err.None? ==> err == None && result == Fill(out, r.data) && sequence == NextSequence(old(sequence)))
    {
      var buf: seq<bv8> := [(reportID & 0xFF) as bv8];
      buf := buf + report[1..];
      ghost var base := buf;
      while |buf| < MaxBufSize
        invariant |base| <= |buf| && buf[..|base|] == base
        invariant forall i :: |base| <= i < |buf| ==> buf[i] == 0
        invariant |buf| <= MaxBufSize || buf == base
      {
        buf := buf + [0];
      }
      ZeroPadded(base, buf);
      buf := buf[3 := sequence];
      assert buf == OutgoingReport(reportID, report, sequence);
      var dev := device;
      var n, e, filled := dev.GetFeatureReport(buf);
      if e.Some? {
        return [], TransportErr(e);
      }
      sequence := NextSequence(sequence);
      result := filled;
      err := None;
    }

    method Initialize() returns (err: Option<Error>)
      requires device != null
      modifies this, device
      ensures device == old(device) && device.calls == old(device.calls) + [FeatureCall(OutgoingReport(0, InitializePacket(), old(sequence)))]
      ensures err == TransportErr(Head(old(device.replies)).err)
      ensures deviceInfo == old(deviceInfo) && device.replies == Rest(old(device.replies))
      ensures sequence == if Head(old(device.replies)).err.None? then NextSequence(old(sequence)) else old(sequence)
    {
      var _, e := FeatureReport(0x00, InitializePacket());
      err := e;
    }

    method FreezeEffects() returns (err: Option<Error>)
      requires device != null
      modifies this, device
      ensures device == old(device) && device.calls == old(device.calls) + [FeatureCall(OutgoingReport(0, FreezePacket(), old(sequence)))]
      ensures err == TransportErr(Head(old(device.replies)).err)
      ensures deviceInfo == old(deviceInfo) && device.replies == Rest(old(device.replies))
      ensures sequence == if Head(old(device.replies)).err.None? then NextSequence(old(sequence)) else old(sequence)
    {
      var _, e := FeatureReport(0x00, FreezePacket());
      err := e;
    }

    method Apply() returns (err: Option<Error>)
      requires device != null
      modifies this, device
      ensures device == old(device) && device.calls == old(device.calls) + [FeatureCall(OutgoingReport(0, TriggerPacket(), old(sequence)))]
      ensures err == TransportErr(Head(old(device.replies)).err)
      ensures deviceInfo == old(deviceInfo) && device.replies == Rest(old(device.replies))
      ensures sequence == if Head(old(device.replies)).err.None? then NextSequence(old(sequence)) else old(sequence)
    {
      var _, e := FeatureReport(0x00, TriggerPacket());
      err := e;
    }

    /** Rejects a level above 63 without touching the device; otherwise one transaction. */
    method SetBrightness(brightness: bv8) returns (err: Option<Error>)
      requires brightness <= MaxBrightness ==> device != null
      modifies this, device
      ensures device == old(device) && deviceInfo == old(deviceInfo)
      ensures brightness > MaxBrightness ==>
                err == Some(Packet(BrightnessOutOfRange)) && sequence == old(sequence)
                && (device != null ==> device.calls == old(device.calls) && device.replies == old(device.replies))
      ensures brightness <= MaxBrightness ==>
                device.calls == old(device.calls) + [FeatureCall(OutgoingReport(0, [0, 43, 0, brightness], old(sequence)))]
                && err == TransportErr(Head(old(device.replies)).err)
                && device.replies == Rest(old(device.replies))
                && sequence == (if Head(old(device.replies)).err.None? then NextSequence(old(sequence)) else old(sequence))
    {
      var packet := BrightnessPacket(brightness);
      if packet.Err? {
        return Some(Packet(packet.error));
      }
      var _, e := FeatureReport(0x00, packet.value);
      err := e;
    }

    /** Queries the firmware and reads its fields from offsets 2 to 6 of the answer; on error, nothing is parsed. */
    method GetKeyboardData() returns (err: Option<Error>, info: FirmwareInfo)
      requires device != null
      modifies this, device
      ensures device == old(device) && device.calls == old(device.calls) + [FeatureCall(OutgoingReport(0, FirmwarePacket(), old(sequence)))]
      ensures deviceInfo == old(deviceInfo) && device.replies == Rest(old(device.replies))
      ensures var r := Head(old(device.replies));
              err == TransportErr(r.err)
              && (r.err.Some? ==> info == NoFirmwareInfo && sequence == old(sequence))
              && (r.err.None? ==> info == ParseFirmwareInfo(Fill(OutgoingReport(0, FirmwarePacket(), old(sequence)), r.data))
                                  && sequence == NextSequence(old(sequence)))
    {
      ghost var out := OutgoingReport(0, FirmwarePacket(), sequence);
      var packet, e := FeatureReport(0x00, FirmwarePacket());
      if e.Some? {
        return e, NoFirmwareInfo;
      }
      assert |packet| == |out| == MaxBufSize;
      var startIdx := 2;
      info := FirmwareInfo(
        majorVersion := packet[startIdx + 1],
        minorVersion := packet[startIdx + 2],
        patchVersion := packet[startIdx + 3],
        rcVersion := packet[startIdx + 4],
        packetCount := packet[startIdx]);
      err := None;
    }

    /** A raw 65-byte read, retried up to five times; see `ReadSpec`. */
    method Read() returns (data: seq<bv8>, err: Option<Error>)
      modifies device
      ensures old(device) == null ==> data == [] && err == Some(NotConnected)
      ensures old(device) != null ==>
                var o := ReadSpec(old(device.replies), stripLeadingReadByte);
                data == o.data && err == o.err && device.replies == o.rest && device.calls == old(device.calls) + o.log
    {
      if device == null {
        return [], Some(NotConnected);
      }
      var dev := device;
      data := Zeros(MaxBufSize);
      var retry: nat := 0;
      var bytesRead := 0;
      err := None;
      ghost var goal := ReadSpec(dev.replies, stripLeadingReadByte);
      while bytesRead != MaxBufSize
        invariant retry <= MaxAttempts
        invariant var o := ReadLoop(dev.replies, data, bytesRead, err, retry, stripLeadingReadByte);
                  o.data == goal.data && o.err == goal.err && o.rest == goal.rest
                  && dev.calls + o.log == old(device.calls) + goal.log
        decreases MaxAttempts - retry
      {
        if retry >= 1 {
          if retry > 5 {
            err := Some(MaximumRetriesExceeded);
            return;
          }
        }
        ReadLoopStep(dev.replies, data, bytesRead, err, retry, stripLeadingReadByte, dev.calls);
        var n, e, filled := dev.Read(data);
        if n > 0 && stripLeadingReadByte {
          n := n - 1;
          filled := filled[1..];
        }
        data, bytesRead, err := filled, n, TransportErr(e);
        retry := retry + 1;
      }
      assert old(device.calls) + goal.log == dev.calls + [];
    }

    /** A raw write of `data`, retried up to five times; see `WriteSpec`. */
    method Write(data: seq<bv8>) returns (err: Option<Error>)
      modifies device
      ensures old(device) == null ==> err == Some(NotConnected)
      ensures old(device) != null ==>
                var o := WriteSpec(old(device.replies), data);
                err == o.err && device.replies == o.rest && device.calls == old(device.calls) + o.log
    {
      if device == null {
        return Some(NotConnected);
      }
      var dev := device;
      var bytesWritten := 0;
      var retry: nat := 0;
      err := None;
      ghost var goal := WriteSpec(dev.replies, data);
      while bytesWritten != |data|
        invariant retry <= MaxAttempts
        invariant var o := WriteLoop(dev.replies, data, bytesWritten, err, retry);
                  o.err == goal.err && o.rest == goal.rest && dev.calls + o.log == old(device.calls) + goal.log
        decreases MaxAttempts - retry
      {
        if retry >= 1 {
          if retry > 5 {
            err := Some(MaximumRetriesExceeded);
            return;
          }
        }
        WriteLoopStep(dev.replies, data, bytesWritten, err, retry, dev.calls);
        var n, e := dev.Write(data);
        bytesWritten, err := n, TransportErr(e);
        if e.None? {
          return;
        }
        retry := retry + 1;
      }
      assert old(device.calls) + goal.log == dev.calls + [];
    }

    /** Closes the handle if there is one; the handle itself is kept, not cleared. */
    method Disconnect() returns (err: Option<Error>)
      modifies device
      ensures device == old(device)
      ensures old(device) == null ==> err == None
      ensures old(device) != null ==>
                err == TransportErr(Head(old(device.replies)).err)
                && device.calls == old(device.calls) + [CloseCall] && device.replies == Rest(old(device.replies))
    {
      err := None;
      if device != null {
        var e := device.Close();
        err := TransportErr(e);
      }
    }
  }
}
