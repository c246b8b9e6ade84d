/** The recovery profiles of `mrp_update_recovery` and the configuration they leave behind. */
module Recovery {
  import opened MrpTypes

  datatype RingTimes = RingTimes(
    topoInterval: nat, topoMax: nat, testShort: nat, testInterval: nat, testMax: nat,
    linkInterval: nat, linkMax: nat)
  {
    function Scale(f: nat): RingTimes {
      this.(topoInterval := U32(topoInterval * f), testShort := U32(testShort * f),
            testInterval := U32(testInterval * f), linkInterval := U32(linkInterval * f))
    }
  }

  datatype InTimes = InTimes(
    topoInterval: nat, topoMax: nat, testInterval: nat, testMax: nat,
    linkInterval: nat, linkMax: nat, statusInterval: nat, statusMax: nat)
  {
    function Scale(f: nat): InTimes {
      this.(topoInterval := U32(topoInterval * f), testInterval := U32(testInterval * f),
            linkInterval := U32(linkInterval * f), statusInterval := U32(statusInterval * f))
    }
  }

  const RING_500 := RingTimes(20000, 3, 30000, 50000, 5, 100000, 4)
  const RING_200 := RingTimes(10000, 3, 10000, 20000, 3, 20000, 4)
  const RING_30 := RingTimes(500, 3, 1000, 3500, 3, 1000, 4)
  const RING_10 := RingTimes(500, 3, 500, 1000, 3, 1000, 4)
  const IN_500 := InTimes(20000, 3, 50000, 8, 20000, 4, 20000, 8)
  const IN_200 := InTimes(10000, 3, 20000, 8, 20000, 4, 20000, 8)

  /** An unknown profile number keeps the intervals, which are then scaled once more. */
  function UpdateRing(prev: RingTimes, recv: u8, f: nat): RingTimes {
    (if recv == 0 then RING_500
     else if recv == 1 then RING_200
     else if recv == 2 then RING_30
     else if recv == 3 then RING_10
     else prev).Scale(f)
  }

  function UpdateIn(prev: InTimes, recv: u8, f: nat): InTimes {
    (if recv == 0 then IN_500 else if recv == 1 then IN_200 else prev).Scale(f)
  }

  /** `mrp_create` loads the 500 ms profiles, then `mrp_add` the ones it was asked for. */
  function Configured(mac: Mac, prio: u16, inId: u16, mra: bool, react: bool, inMode: InMode,
                      recv: u8, inRecv: u8, f: nat): ConfigRaw
  {
    var r := UpdateRing(RING_500.Scale(f), recv, f);
    var i := UpdateIn(IN_500.Scale(f), inRecv, f);
    ConfigRaw(mac, prio, inId, mra, react, 1, inMode,
              r.topoInterval, r.topoMax, r.testShort, r.testInterval, r.testMax, r.testMax,
              r.linkInterval, r.linkMax,
              i.topoInterval, i.topoMax, i.testInterval, i.testMax, i.linkInterval, i.linkMax,
              i.statusInterval, i.statusMax, 10000000)
  }

  /** Every known profile gives positive intervals for every time factor that fits 32 bits. */
  lemma ProfilesOk(mac: Mac, prio: u16, inId: u16, mra: bool, react: bool, inMode: InMode,
                   recv: u8, inRecv: u8, f: nat)
    requires recv < 4 && inRecv < 2 && 0 < f <= 42949
    ensures Configured(mac, prio, inId, mra, react, inMode, recv, inRecv, f).Ok()
  {
  }

  /** How long things take in each ring profile, in microseconds and multiples of the time factor: from the
      announcement of a topology change to the flush, from a new link to the opened port of a client, and
      from the last answered test to the opened ring. */
  lemma RingDurations(mac: Mac, prio: u16, inId: u16, mra: bool, react: bool, inMode: InMode,
                      recv: u8, inRecv: u8, f: nat)
    requires recv < 4 && 0 < f <= 42949
    ensures var c := Configured(mac, prio, inId, mra, react, inMode, recv, inRecv, f);
            && c.topoMax * c.topoInterval == [60000, 30000, 1500, 1500][recv] * f
            && (c.linkMax + 1) * c.linkInterval == [500000, 100000, 5000, 5000][recv] * f
            && c.testMax * c.testInterval == [250000, 60000, 10500, 3000][recv] * f
            && c.testMax * c.testShort == [150000, 30000, 3000, 1500][recv] * f
  {
  }

  /** The same in each interconnection profile, with the polls of LC mode. */
  lemma InDurations(mac: Mac, prio: u16, inId: u16, mra: bool, react: bool, inMode: InMode,
                    recv: u8, inRecv: u8, f: nat)
    requires inRecv < 2 && 0 < f <= 42949
    ensures var c := Configured(mac, prio, inId, mra, react, inMode, recv, inRecv, f);
            && c.inTopoMax * c.inTopoInterval == [60000, 30000][inRecv] * f
            && (c.inLinkMax + 1) * c.inLinkInterval == 100000 * f
            && (c.inTestMax + 1) * c.inTestInterval == [450000, 180000][inRecv] * f
            && c.inStatusMax * c.inStatusInterval == 160000 * f
  {
  }
}
