/**
 * The LED zone map and key model of key_info.go.  The firmware wires the
 * three colour channels of an LED in a different order in each of three
 * zones; zone membership is decided by fixed numeric ranges of the LED id.
 */
module KeyInfo {

  /** An LED: its id, its zone and the position of each colour in the device's RGB triple. */
  datatype LED = LED(redChannel: bv8, blueChannel: bv8, greenChannel: bv8, zone: int, id: int)

  /** The zone-2 test of `NewLED`, as written there. */
  predicate InZone2(id: int)
  {
    (14 <= id && id <= 17) || (34 <= id && id <= 40) || (58 <= id && id <= 63) || (81 <= id && id <= 90)
    || (106 <= id && id <= 111) || (130 <= id && id <= 135) || (155 <= id && id <= 160)
  }

  /** The zone-3 test of `NewLED`, as written there. */
  predicate InZone3(id: int)
  {
    (18 <= id && id <= 23) || (41 <= id && id <= 47) || (64 <= id && id <= 71) || (91 <= id && id <= 95)
    || (115 <= id && id <= 119) || (137 <= id && id <= 143) || (161 <= id && id <= 167) || id == 191
    || (193 <= id && id <= 215)
  }

  function NewLED(id: int): (r: LED)
    ensures r.id == id
    ensures r.zone == 1 || r.zone == 2 || r.zone == 3
    ensures r.zone == 2 <==> InRanges(id, Zone2Ranges)
    ensures r.zone == 3 <==> InRanges(id, Zone3Ranges)
    ensures [r.redChannel, r.greenChannel, r.blueChannel] == ChannelOrder(r.zone)
  {
    ZoneTestsMatchTables(id);
    if InZone2(id) then LED(id := id, redChannel := 1, greenChannel := 2, blueChannel := 0, zone := 2)
    else if InZone3(id) then LED(id := id, redChannel := 2, greenChannel := 0, blueChannel := 1, zone := 3)
    else LED(id := id, redChannel := 0, greenChannel := 1, blueChannel := 2, zone := 1)
  }

  // ---------------------------------------------------------------------
  // The zone map as data: an independent statement of the same ranges

  /** Inclusive id ranges; `{191}` is the range (191, 191). */
  const Zone2Ranges: seq<(int, int)> :=
    [(14, 17), (34, 40), (58, 63), (81, 90), (106, 111), (130, 135), (155, 160)]
  const Zone3Ranges: seq<(int, int)> :=
    [(18, 23), (41, 47), (64, 71), (91, 95), (115, 119), (137, 143), (161, 167), (191, 191), (193, 215)]

  predicate InRanges(id: int, ranges: seq<(int, int)>)
  {
    exists k :: 0 <= k < |ranges| && ranges[k].0 <= id <= ranges[k].1
  }

  /** Position of red, green and blue in the device's RGB triple, per zone. */
  function ChannelOrder(zone: int): seq<bv8>
  {
    if zone == 2 then [1, 2, 0] else if zone == 3 then [2, 0, 1] else [0, 1, 2]
  }

  lemma ZoneTestsMatchTables(id: int)
    ensures InZone2(id) <==> InRanges(id, Zone2Ranges)
    ensures InZone3(id) <==> InRanges(id, Zone3Ranges)
  {
    if 14 <= id <= 17 {
      assert Zone2Ranges[0].0 <= id <= Zone2Ranges[0].1;
    } else if 34 <= id <= 40 {
      assert Zone2Ranges[1].0 <= id <= Zone2Ranges[1].1;
    } else if 58 <= id <= 63 {
      assert Zone2Ranges[2].0 <= id <= Zone2Ranges[2].1;
    } else if 81 <= id <= 90 {
      assert Zone2Ranges[3].0 <= id <= Zone2Ranges[3].1;
    } else if 106 <= id <= 111 {
      assert Zone2Ranges[4].0 <= id <= Zone2Ranges[4].1;
    } else if 130 <= id <= 135 {
      assert Zone2Ranges[5].0 <= id <= Zone2Ranges[5].1;
    } else if 155 <= id <= 160 {
      assert Zone2Ranges[6].0 <= id <= Zone2Ranges[6].1;
    }
    if 18 <= id <= 23 {
      assert Zone3Ranges[0].0 <= id <= Zone3Ranges[0].1;
    } else if 41 <= id <= 47 {
      assert Zone3Ranges[1].0 <= id <= Zone3Ranges[1].1;
    } else if 64 <= id <= 71 {
      assert Zone3Ranges[2].0 <= id <= Zone3Ranges[2].1;
    } else if 91 <= id <= 95 {
      assert Zone3Ranges[3].0 <= id <= Zone3Ranges[3].1;
    } else if 115 <= id <= 119 {
      assert Zone3Ranges[4].0 <= id <= Zone3Ranges[4].1;
    } else if 137 <= id <= 143 {
      assert Zone3Ranges[5].0 <= id <= Zone3Ranges[5].1;
    } else if 161 <= id <= 167 {
      assert Zone3Ranges[6].0 <= id <= Zone3Ranges[6].1;
    } else if 191 <= id <= 191 {
      assert Zone3Ranges[7].0 <= id <= Zone3Ranges[7].1;
    } else if 193 <= id <= 215 {
      assert Zone3Ranges[8].0 <= id <= Zone3Ranges[8].1;
    }
  }

  /** No id lies in both range tables, so the order of the two tests in `NewLED` is immaterial. */
  lemma ZoneRangesDisjoint(id: int)
    ensures !(InRanges(id, Zone2Ranges) && InRanges(id, Zone3Ranges))
  {
    ZoneTestsMatchTables(id);
  }

  /** Ids outside both tables fall into zone 1 with the identity channel order. */
  lemma DefaultZone(id: int)
    ensures NewLED(id).zone == 1 <==> !InRanges(id, Zone2Ranges) && !InRanges(id, Zone3Ranges)
    ensures NewLED(id).zone == 1 ==> NewLED(id).redChannel == 0 && NewLED(id).greenChannel == 1 && NewLED(id).blueChannel == 2
  {
    var r := NewLED(id);
    assert [r.redChannel, r.greenChannel, r.blueChannel][0] == r.redChannel;
  }

  // ---------------------------------------------------------------------
  // Key model

  /** An IEEE-754 single, carried as its 32-bit pattern; no arithmetic is done on it. */
  type Float32 = bv32

  datatype KeyCoordinates = KeyCoordinates(x: Float32, y: Float32)

  datatype KeyModel = KeyModel(
    led: LED,
    description: string,
    shortName: string,
    topLeftCoordinates: KeyCoordinates,
    width: Float32,
    height: Float32)
  {
    function LEDID(): int { led.id }
    function GetLED(): LED { led }
    function LEDZone(): int { led.zone }
    function Description(): string { description }
    function ShortName(): string { shortName }
    function TopLeftCoordinates(): KeyCoordinates { topLeftCoordinates }
    function Width(): Float32 { width }
    function Height(): Float32 { height }

    /** The positions of red, green and blue, in that order, as a 3-byte array. */
    function RGBChannels(): (rgb: seq<bv8>)
      ensures |rgb| == 3
      ensures rgb[0] == led.redChannel && rgb[1] == led.greenChannel && rgb[2] == led.blueChannel
    {
      [led.redChannel, led.greenChannel, led.blueChannel]
    }
  }

  function NewKeyModel(ledID: int, description: string, shortName: string,
                       topLeftCoordinates: KeyCoordinates, width: Float32, height: Float32): (k: KeyModel)
    ensures k.LEDID() == ledID && k.LEDZone() == NewLED(ledID).zone && k.GetLED() == NewLED(ledID)
    ensures k.Description() == description && k.ShortName() == shortName
    ensures k.TopLeftCoordinates() == topLeftCoordinates && k.Width() == width && k.Height() == height
  {
    KeyModel(NewLED(ledID), description, shortName, topLeftCoordinates, width, height)
  }

  /**
   * The channel triple of every constructed key is the channel order of its
   * zone, and so a permutation of 0, 1, 2: each colour goes to a distinct
   * position of the device's triple.
   */
  lemma RGBChannelsPermutation(ledID: int, description: string, shortName: string,
                               c: KeyCoordinates, width: Float32, height: Float32)
    ensures var k := NewKeyModel(ledID, description, shortName, c, width, height);
            k.RGBChannels() == ChannelOrder(k.LEDZone()) && multiset(k.RGBChannels()) == multiset{0, 1, 2}
  {
    var k := NewKeyModel(ledID, description, shortName, c, width, height);
    var z := k.LEDZone();
    assert z == 1 || z == 2 || z == 3;
    var order := ChannelOrder(z);
    assert order == [order[0], order[1], order[2]];
    assert multiset(order) == multiset{order[0], order[1], order[2]};
  }
}
