/**
 * The packet codec of packets.go: every builder returns one fixed-layout
 * byte packet.  Bytes are `bv8`, Go's `uint16` words are `bv16`, and
 * `binary.Write(..., binary.LittleEndian, []uint16{...})` is `LeWords`.
 * The `*hid.DeviceInfo` argument every Go builder takes is never read,
 * so it is dropped.
 */
module Packets {
  import opened Wrappers

  // ---------------------------------------------------------------------
  // Little-endian u16 encoding

  function Lo(w: bv16): bv8 { (w & 0xFF) as bv8 }
  function Hi(w: bv16): bv8 { (w >> 8) as bv8 }

  /** The word whose little-endian encoding is `[lo, hi]`. */
  function Word(lo: bv8, hi: bv8): (w: bv16)
    ensures Lo(w) == lo && Hi(w) == hi
  {
    (hi as bv16 << 8) | lo as bv16
  }

  lemma WordOfBytes(w: bv16)
    ensures Word(Lo(w), Hi(w)) == w
  {
  }

  /** `binary.Write` of a `[]uint16` in little-endian order. */
  function LeWords(ws: seq<bv16>): (b: seq<bv8>)
    ensures |b| == 2 * |ws|
  {
    if ws == [] then [] else [Lo(ws[0]), Hi(ws[0])] + LeWords(ws[1..])
  }

  /** Word `i` occupies bytes `2i` (low) and `2i + 1` (high). */
  lemma {:induction false} LeWordsAt(ws: seq<bv16>, i: nat)
    requires i < |ws|
    ensures LeWords(ws)[2 * i] == Lo(ws[i]) && LeWords(ws)[2 * i + 1] == Hi(ws[i])
  {
    if i > 0 {
      LeWordsAt(ws[1..], i - 1);
    }
  }

  /** The word stored little-endian at `p[at]`, `p[at + 1]`. */
  function WordAt(p: seq<bv8>, at: nat): bv16
    requires at + 1 < |p|
  {
    Word(p[at], p[at + 1])
  }

  lemma LeWordsDecode(ws: seq<bv16>, i: nat)
    requires i < |ws|
    ensures WordAt(LeWords(ws), 2 * i) == ws[i]
  {
    var b := LeWords(ws);
    LeWordsAt(ws, i);
    assert WordAt(b, 2 * i) == Word(Lo(ws[i]), Hi(ws[i]));
    WordOfBytes(ws[i]);
  }

  // ---------------------------------------------------------------------
  // Constant packets

  /** The 32-byte opaque token both constant commands carry after their header. */
  const CommandToken: seq<bv8> :=
    [ 0x4d, 0x43, 0x49, 0x51, 0x46, 0x49, 0x46, 0x45, 0x44, 0x4c, 0x48, 0x39, 0x46, 0x34, 0x41, 0x45,
      0x43, 0x58, 0x39, 0x31, 0x36, 0x50, 0x42, 0x44, 0x35, 0x50, 0x33, 0x41, 0x33, 0x30, 0x37, 0x38 ]

  /** The opaque initialise command, reproduced byte for byte. */
  function InitializePacket(): (p: seq<bv8>)
    ensures |p| == 35
  {
    [0x00, 0x13, 0x00] + CommandToken
  }

  /** The opaque firmware query: another header, the same 32-byte token. */
  function FirmwarePacket(): (p: seq<bv8>)
    ensures |p| == 35
  {
    [0x00, 0x11, 0x06] + CommandToken
  }

  /** The firmware query and the initialise command differ only in their 3-byte headers. */
  lemma FirmwareAndInitializeShareToken()
    ensures FirmwarePacket()[3..] == InitializePacket()[3..] == CommandToken
    ensures FirmwarePacket()[..3] != InitializePacket()[..3]
  {
    var f, i := FirmwarePacket(), InitializePacket();
    assert f[3..] == CommandToken;
    assert i[3..] == CommandToken;
    assert f[..3][1] == 0x11 && i[..3][1] == 0x13;
  }

  // ---------------------------------------------------------------------
  // Brightness

  datatype PacketError = BrightnessOutOfRange

  const MaxBrightness: bv8 := 63

  /** Fails, with no bytes, above 63; otherwise the 4-byte command carrying the level. */
  function BrightnessPacket(brightness: bv8): (r: Result<seq<bv8>, PacketError>)
    ensures r.Err? <==> brightness > MaxBrightness
    ensures r.Err? ==> r.error == BrightnessOutOfRange
    ensures r.Ok? ==> |r.value| == 4 && r.value[..3] == [0, 43, 0] && r.value[3] == brightness
  {
    // the Go guard also tests `brightness < 0`, which a uint8 never is
    if brightness > 63 || brightness < 0 then Err(BrightnessOutOfRange)
    else Ok([0, 43, 0, brightness])
  }

  // ---------------------------------------------------------------------
  // Freeze and trigger

  /** Fourteen words of 0xFFFF, the body shared by freeze and trigger. */
  function AllOnesBody(): (b: seq<bv8>)
    ensures |b| == 28
    ensures forall i :: 0 <= i < 28 ==> b[i] == 0xFF
  {
    var ws: seq<bv16> := seq(14, _ => 0xFFFF);
    var b := LeWords(ws);
    assert forall i :: 0 <= i < 28 ==> b[i] == 0xFF by {
      forall i | 0 <= i < 28 ensures b[i] == 0xFF {
        LeWordsAt(ws, i / 2);
      }
    }
    b
  }

  function FreezePacket(): (p: seq<bv8>)
    ensures |p| == 32
    ensures p[..4] == [0, 45, 0, 7]
    ensures forall i :: 4 <= i < 32 ==> p[i] == 0xFF
  {
    [0, 45, 0, 7] + AllOnesBody()
  }

  function TriggerPacket(): (p: seq<bv8>)
    ensures |p| == 32
    ensures p[..4] == [0, 45, 0, 15]
    ensures forall i :: 4 <= i < 32 ==> p[i] == 0xFF
  {
    [0, 45, 0, 15] + AllOnesBody()
  }

  /** Trigger is the freeze packet with opcode byte 3 changed from 7 to 15. */
  lemma TriggerIsFreezeWithOpcode15()
    ensures TriggerPacket() == FreezePacket()[3 := 15]
  {
    var t, f := TriggerPacket(), FreezePacket()[3 := 15];
    assert |t| == |f|;
    forall i | 0 <= i < |t| ensures t[i] == f[i] {
      if i < 4 {
        assert t[i] == t[..4][i] && FreezePacket()[i] == FreezePacket()[..4][i];
      }
    }
  }

  // ---------------------------------------------------------------------
  // Per-channel state packet

  /** One colour channel's animation program for one key (Go `StateInfo`). */
  datatype StateInfo = StateInfo(
    key: bv8,
    colorChannelID: bv8,
    effectID: bv8,
    effectFlag: bv16,
    upMaximumLevel: bv16,
    upIncrement: bv16,
    upHoldLevel: bv16,
    upHoldDelay: bv16,
    downMinimumLevel: bv16,
    downDecrement: bv16,
    downHoldLevel: bv16,
    downHoldDelay: bv16,
    startDelay: bv16)

  /** Key code 0 is sent as the default physical key 151. */
  const DefaultKey: bv8 := 151

  function EffectiveKey(key: bv8): (k: bv8)
    ensures k != 0
    ensures key != 0 ==> k == key
    ensures key == 0 ==> k == DefaultKey
  {
    if key == 0 then 151 else key
  }

  /** The eleven words after the header, in the order they are written. */
  function StateWords(s: StateInfo): seq<bv16>
  {
    [ s.upMaximumLevel, s.upIncrement, s.upHoldLevel, s.upHoldDelay,
      s.downMinimumLevel, s.downDecrement, s.downHoldLevel, s.downHoldDelay,
      s.startDelay, 0, s.effectFlag ]
  }

  const StatePacketLength := 29

  function StatePacket(state: StateInfo): (p: seq<bv8>)
    ensures |p| == StatePacketLength
    ensures p[0] == 0 && p[1] == 40 && p[2] == 0 && p[4] == 1
    ensures p[3] == state.colorChannelID && p[5] == EffectiveKey(state.key) && p[6] == state.effectID
  {
    var key := if state.key == 0 then 151 else state.key;
    [0, 40, 0, state.colorChannelID, 1, key, state.effectID] + LeWords(StateWords(state))
  }

  /** After the header, the eleven words in little-endian order. */
  lemma StatePacketBody(s: StateInfo)
    ensures StatePacket(s)[7..] == LeWords(StateWords(s))
  {
    var body := LeWords(StateWords(s));
    assert StatePacket(s) == [0, 40, 0, s.colorChannelID, 1, EffectiveKey(s.key), s.effectID] + body;
  }

  /**
   * Reads a state packet back: the inverse of `StatePacket` on its image.
   * Every constant byte is checked, so a packet decodes only if it could
   * have been built.
   */
  function DecodeStatePacket(p: seq<bv8>): Option<StateInfo>
  {
    if |p| != StatePacketLength || p[0] != 0 || p[1] != 40 || p[2] != 0 || p[4] != 1
       || p[5] == 0 || p[25] != 0 || p[26] != 0
    then None
    else Some(StateInfo(
      key := p[5], colorChannelID := p[3], effectID := p[6],
      effectFlag := WordAt(p, 27),
      upMaximumLevel := WordAt(p, 7), upIncrement := WordAt(p, 9),
      upHoldLevel := WordAt(p, 11), upHoldDelay := WordAt(p, 13),
      downMinimumLevel := WordAt(p, 15), downDecrement := WordAt(p, 17),
      downHoldLevel := WordAt(p, 19), downHoldDelay := WordAt(p, 21),
      startDelay := WordAt(p, 23)))
  }

  /** Word `i` of `StateWords` is stored little-endian at offset `7 + 2i`. */
  lemma StatePacketWord(s: StateInfo, i: nat)
    requires i < 11
    ensures WordAt(StatePacket(s), 7 + 2 * i) == StateWords(s)[i]
  {
    var p, ws := StatePacket(s), StateWords(s);
    var b := LeWords(ws);
    StatePacketBody(s);
    LeWordsAt(ws, i);
    assert p[7 + 2 * i] == p[7..][2 * i] == b[2 * i] && p[7 + 2 * i + 1] == p[7..][2 * i + 1] == b[2 * i + 1];
    WordOfBytes(ws[i]);
  }

  /** The words at the eleven slots of a built packet, field by field. */
  lemma StatePacketFields(s: StateInfo)
    ensures var p := StatePacket(s);
            WordAt(p, 7) == s.upMaximumLevel && WordAt(p, 9) == s.upIncrement &&
            WordAt(p, 11) == s.upHoldLevel && WordAt(p, 13) == s.upHoldDelay &&
            WordAt(p, 15) == s.downMinimumLevel && WordAt(p, 17) == s.downDecrement &&
            WordAt(p, 19) == s.downHoldLevel && WordAt(p, 21) == s.downHoldDelay &&
            WordAt(p, 23) == s.startDelay && p[25] == 0 && p[26] == 0 && WordAt(p, 27) == s.effectFlag
  {
    var p := StatePacket(s);
    StatePacketWord(s, 0);
    StatePacketWord(s, 1);
    StatePacketWord(s, 2);
    StatePacketWord(s, 3);
    StatePacketWord(s, 4);
    StatePacketWord(s, 5);
    StatePacketWord(s, 6);
    StatePacketWord(s, 7);
    StatePacketWord(s, 8);
    StatePacketWord(s, 9);
    StatePacketWord(s, 10);
    assert Lo(WordAt(p, 25)) == p[25] && Hi(WordAt(p, 25)) == p[26];
  }

  /** Decoding the offsets of a built packet recovers every field; only a zero key comes back as 151. */
  lemma StatePacketRoundTrip(s: StateInfo)
    ensures DecodeStatePacket(StatePacket(s)) == Some(s.(key := EffectiveKey(s.key)))
  {
    StatePacketFields(s);
  }

  /** Word `k` of a decoded state is the word read at its slot. */
  lemma DecodedWord(p: seq<bv8>, k: nat)
    requires DecodeStatePacket(p).Some? && k < 11 && k != 9
    ensures StateWords(DecodeStatePacket(p).value)[k] == WordAt(p, 7 + 2 * k)
  {
  }

  /** The word slot `k` of a decodable packet is rebuilt byte for byte. */
  lemma DecodedWordRebuilds(p: seq<bv8>, k: nat)
    requires DecodeStatePacket(p).Some? && k < 11
    ensures var q := StatePacket(DecodeStatePacket(p).value);
            q[7..][2 * k] == p[7..][2 * k] && q[7..][2 * k + 1] == p[7..][2 * k + 1]
  {
    var s := DecodeStatePacket(p).value;
    var ws := StateWords(s);
    StatePacketBody(s);
    LeWordsAt(ws, k);
    assert p[7..][2 * k] == p[7 + 2 * k] && p[7..][2 * k + 1] == p[8 + 2 * k];
    if k != 9 {
      DecodedWord(p, k);
    }
  }

  /** Byte strings of even length that agree word by word are equal. */
  lemma EqualByWords(a: seq<bv8>, b: seq<bv8>)
    requires |a| == |b| && |a| % 2 == 0
    requires forall k :: 0 <= k < |a| / 2 ==> a[2 * k] == b[2 * k] && a[2 * k + 1] == b[2 * k + 1]
    ensures a == b
  {
    forall i | 0 <= i < |a| ensures a[i] == b[i] {
      var k := i / 2;
      assert i == 2 * k || i == 2 * k + 1;
    }
  }

  /** The eleven words of a decodable packet are rebuilt byte for byte. */
  lemma DecodedBodyRebuilds(p: seq<bv8>)
    requires DecodeStatePacket(p).Some?
    ensures StatePacket(DecodeStatePacket(p).value)[7..] == p[7..]
  {
    var q := StatePacket(DecodeStatePacket(p).value);
    forall k | 0 <= k < 11 ensures q[7..][2 * k] == p[7..][2 * k] && q[7..][2 * k + 1] == p[7..][2 * k + 1] {
      DecodedWordRebuilds(p, k);
    }
    EqualByWords(q[7..], p[7..]);
  }

  /** The seven header bytes of a decodable packet are rebuilt as they were. */
  lemma DecodedHeaderRebuilds(p: seq<bv8>)
    requires DecodeStatePacket(p).Some?
    ensures StatePacket(DecodeStatePacket(p).value)[..7] == p[..7]
  {
    var q := StatePacket(DecodeStatePacket(p).value);
    assert q[3] == p[3] && q[5] == p[5] && q[6] == p[6];
  }

  /** Conversely, every packet that decodes is exactly what `StatePacket` builds from the result. */
  lemma DecodedStatePacketRebuilds(p: seq<bv8>)
    requires DecodeStatePacket(p).Some?
    ensures StatePacket(DecodeStatePacket(p).value) == p
  {
    var s := DecodeStatePacket(p).value;
    var q := StatePacket(s);
    DecodedBodyRebuilds(p);
    DecodedHeaderRebuilds(p);
    assert q == q[..7] + q[7..] && p == p[..7] + p[7..];
  }

  /** Two state programs give the same packet exactly when they agree up to the key default. */
  lemma StatePacketInjective(s: StateInfo, t: StateInfo)
    ensures StatePacket(s) == StatePacket(t) <==> s.(key := EffectiveKey(s.key)) == t.(key := EffectiveKey(t.key))
  {
    StatePacketRoundTrip(s);
    StatePacketRoundTrip(t);
    if s.(key := EffectiveKey(s.key)) == t.(key := EffectiveKey(t.key)) {
      DecodedStatePacketRebuilds(StatePacket(s));
      DecodedStatePacketRebuilds(StatePacket(t));
    }
  }

  /** Byte 3 of a decodable packet is read as the channel and nowhere else. */
  lemma DecodeChannelByte(p: seq<bv8>, channel: bv8)
    requires DecodeStatePacket(p).Some?
    ensures DecodeStatePacket(p[3 := channel]) == Some(DecodeStatePacket(p).value.(colorChannelID := channel))
  {
    var q := p[3 := channel];
    forall at | 7 <= at < 28 ensures WordAt(q, at) == WordAt(p, at) {
      assert q[at] == p[at] && q[at + 1] == p[at + 1];
    }
  }

  /** The colour channel is byte 3 of a state packet and nothing else. */
  lemma StatePacketChannelByte(s: StateInfo, channel: bv8)
    ensures StatePacket(s.(colorChannelID := channel)) == StatePacket(s)[3 := channel]
  {
    var t := s.(colorChannelID := channel);
    var p := StatePacket(s);
    StatePacketRoundTrip(s);
    DecodeChannelByte(p, channel);
    DecodedStatePacketRebuilds(p[3 := channel]);
    var u := t.(key := EffectiveKey(t.key));
    assert DecodeStatePacket(p[3 := channel]).value == u;
    StatePacketInjective(t, u);
  }

  // ---------------------------------------------------------------------
  // Effect-flag combinators

  const EffectFlagDefaultValue: bv16 := 1
  const TriggerBit: bv16 := 0x4000
  const TransitionBit: bv16 := 0x1000

  function EffectFlagIncrementOnly(value: bv16): (r: bv16)
    ensures r == EffectFlagDefaultValue
  {
    1
  }

  function EffectFlagDecrementOnly(value: bv16): (r: bv16)
    ensures r & (TriggerBit | TransitionBit) == 0 && r != EffectFlagIncrementOnly(value)
  {
    2
  }

  function EffectFlagIncrementDecrement(value: bv16): (r: bv16)
    ensures r & (TriggerBit | TransitionBit) == 0 && r & 1 == 1
  {
    25
  }

  function EffectFlagDecrementIncrement(value: bv16): (r: bv16)
    ensures r & (TriggerBit | TransitionBit) == 0 && r & 2 == 2
  {
    26
  }

  function EffectFlagTriggerOnApply(value: bv16): (r: bv16)
    ensures r & TriggerBit == TriggerBit
    ensures r & !TriggerBit == value & !TriggerBit
  {
    value | 16384
  }

  function EffectFlagTriggerNow(value: bv16): (r: bv16)
    ensures r & TriggerBit == 0
    ensures r & !TriggerBit == value & !TriggerBit
  {
    value & !16384
  }

  function EffectFlagEnableTransition(value: bv16): (r: bv16)
    ensures r & TransitionBit == 0
    ensures r & !TransitionBit == value & !TransitionBit
  {
    value & !4096
  }

  function EffectFlagDisableTransition(value: bv16): (r: bv16)
    ensures r & TransitionBit == TransitionBit
    ensures r & !TransitionBit == value & !TransitionBit
  {
    value | 4096
  }

  /** The four direction codes are distinct and ignore the flag they are given. */
  lemma DirectionCodes(v: bv16, w: bv16)
    ensures EffectFlagIncrementOnly(v) == EffectFlagIncrementOnly(w) == 1
    ensures EffectFlagDecrementOnly(v) == EffectFlagDecrementOnly(w) == 2
    ensures EffectFlagIncrementDecrement(v) == EffectFlagIncrementDecrement(w) == 25
    ensures EffectFlagDecrementIncrement(v) == EffectFlagDecrementIncrement(w) == 26
  {
  }

  /**
   * A direction code discards the trigger and transition bits: applied
   * after a bit combinator it undoes it, so the bit combinators must come last.
   */
  lemma DirectionDiscardsModeBits(v: bv16)
    ensures EffectFlagIncrementOnly(EffectFlagTriggerOnApply(v)) & TriggerBit == 0
    ensures EffectFlagDecrementOnly(EffectFlagTriggerOnApply(v)) & TriggerBit == 0
    ensures EffectFlagIncrementDecrement(EffectFlagTriggerOnApply(v)) & TriggerBit == 0
    ensures EffectFlagDecrementIncrement(EffectFlagTriggerOnApply(v)) & TriggerBit == 0
    ensures EffectFlagIncrementOnly(EffectFlagDisableTransition(v)) & TransitionBit == 0
    ensures EffectFlagDecrementOnly(EffectFlagDisableTransition(v)) & TransitionBit == 0
    ensures EffectFlagIncrementDecrement(EffectFlagDisableTransition(v)) & TransitionBit == 0
    ensures EffectFlagDecrementIncrement(EffectFlagDisableTransition(v)) & TransitionBit == 0
  {
  }

  /** Setting or clearing the trigger bit is idempotent, and clearing undoes setting. */
  lemma TriggerCombinatorsIdempotent(v: bv16)
    ensures EffectFlagTriggerOnApply(EffectFlagTriggerOnApply(v)) == EffectFlagTriggerOnApply(v)
    ensures EffectFlagTriggerNow(EffectFlagTriggerNow(v)) == EffectFlagTriggerNow(v)
    ensures EffectFlagTriggerNow(EffectFlagTriggerOnApply(v)) == EffectFlagTriggerNow(v)
  {
  }

  /** The same for the transition bit. */
  lemma TransitionCombinatorsIdempotent(v: bv16)
    ensures EffectFlagEnableTransition(EffectFlagEnableTransition(v)) == EffectFlagEnableTransition(v)
    ensures EffectFlagDisableTransition(EffectFlagDisableTransition(v)) == EffectFlagDisableTransition(v)
    ensures EffectFlagEnableTransition(EffectFlagDisableTransition(v)) == EffectFlagEnableTransition(v)
  {
  }

  /** The trigger and transition combinators touch different bits, so they commute. */
  lemma BitCombinatorsCommute(v: bv16)
    ensures EffectFlagTriggerOnApply(EffectFlagDisableTransition(v)) == EffectFlagDisableTransition(EffectFlagTriggerOnApply(v))
    ensures EffectFlagTriggerNow(EffectFlagEnableTransition(v)) == EffectFlagEnableTransition(EffectFlagTriggerNow(v))
  {
  }
}
