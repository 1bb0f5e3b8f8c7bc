/**
 * Classification and decoding of a received advertisement (main/beaconBLE.c, main/beaconBLE.h).
 * AD types used: Manufacturer Specific Data 0xFF, Service Data 0x16 and TX Power Level 0x0A
 * (Bluetooth Core Specification Supplement, Part A, sections 1.4, 1.11 and 1.5).
 */
module BeaconBle {
  import opened Wrappers
  import opened AdData

  const MsdType: byte := 0xFF
  const ServiceDataType: byte := 0x16
  const TxPowerType: byte := 0x0A

  /** ADV_DATA_MAN_LEN and ADV_DATA_SERVICE_LEN */
  const ManLen := 4
  const ServiceLen := 4

  /** ADV_DATA_MAN_DATA = { 0xFF, 0xFF, 'F', 'H' } */
  const Tag: seq<byte> := [0xFF, 0xFF, 70, 72]

  /** esp_err_t values */
  const EspOk := 0
  const EspFail := -1

  type Bytes4 = s: seq<byte> | |s| == 4 witness [0, 0, 0, 0]

  /** A decoded `ble_beacon_recived_t`, as a value. */
  datatype Sighting = Sighting(msd: Bytes4, uuid: Bytes4, txPower: byte, rssi: int8,
                               packetGroup: int32, deviceId: int8)

  /** The three sections `ble_beacon_decode` extracts. */
  datatype Fields = Fields(msd: Bytes4, uuid: Bytes4, txPower: byte)

  /** What `esp_ble_resolve_adv_data` hands back: the data and its length, empty when absent. */
  function SectionData(adv: seq<byte>, t: byte): seq<byte>
  {
    match Lookup(adv, t)
    case None => []
    case Some(d) => d
  }

  /** `memcmp(a, b, n) == 0` for the bytes both buffers hold. */
  predicate MemEqual(a: seq<byte>, b: seq<byte>, n: nat)
  {
    n <= |a| && n <= |b| && a[..n] == b[..n]
  }

  /** ble_is_beacon: the manufacturer data compares equal over its length, and that length is 4. */
  predicate IsBeacon(adv: seq<byte>)
  {
    var value := SectionData(adv, MsdType);
    var len := |value|;
    MemEqual(value, Tag, len) && len == ManLen
  }

  /** The first manufacturer-data structure exists and its data is exactly the tag. */
  lemma IsBeaconIff(adv: seq<byte>)
    ensures IsBeacon(adv) <==>
      exists i :: IsFirstOfType(Parse(adv), MsdType, i) && Parse(adv)[i].data == Tag
  {
    LookupSpec(adv, MsdType);
    var ps := Parse(adv);
    if i :| IsFirstOfType(ps, MsdType, i) && ps[i].data == Tag {
      LookupFound(adv, MsdType, i);
      var found := Lookup(adv, MsdType);
      var k :| IsFirstOfType(ps, MsdType, k) && ps[k].data == found.value;
      FirstOfTypeUnique(ps, MsdType, i, k);
    }
  }

  /** With no manufacturer-data structure the looked-up length is 0, so the payload is no beacon. */
  lemma NoMsdNotBeacon(adv: seq<byte>)
    requires forall i :: 0 <= i < |Parse(adv)| ==> Parse(adv)[i].adType != MsdType
    ensures !IsBeacon(adv)
  {
    LookupSpec(adv, MsdType);
  }

  /** The value-level result of `ble_beacon_decode`: all three sections with their exact sizes. */
  function DecodeFields(adv: seq<byte>): Option<Fields>
  {
    var m := SectionData(adv, MsdType);
    var u := SectionData(adv, ServiceDataType);
    var p := SectionData(adv, TxPowerType);
    if |m| == ManLen && |u| == ServiceLen && |p| == 1 then Some(Fields(m, u, p[0])) else None
  }

  /**
   * Decoding succeeds exactly when the first structures of types 0xFF, 0x16 and 0x0A carry
   * 4, 4 and 1 octets, and then the fields are those octets verbatim.
   */
  lemma DecodeFieldsSpec(adv: seq<byte>, f: Fields)
    ensures DecodeFields(adv) == Some(f) <==>
      && Lookup(adv, MsdType) == Some(f.msd)
      && Lookup(adv, ServiceDataType) == Some(f.uuid)
      && Lookup(adv, TxPowerType) == Some([f.txPower])
  {
    var p := SectionData(adv, TxPowerType);
    if |p| == 1 {
      assert p == [p[0]];
    }
  }

  /**
   * The record after `ble_beacon_decode` wrote into `before`: the sections are checked in the
   * order manufacturer data, service data, TX power, each copied in as it passes, and the first
   * section of the wrong size stops the decode with the later fields left as they were.
   */
  function DecodeInto(adv: seq<byte>, before: Sighting): Sighting
  {
    var m := SectionData(adv, MsdType);
    if |m| != ManLen then before
    else
      var u := SectionData(adv, ServiceDataType);
      if |u| != ServiceLen then before.(msd := m)
      else
        var p := SectionData(adv, TxPowerType);
        if |p| != 1 then before.(msd := m, uuid := u)
        else before.(msd := m, uuid := u, txPower := p[0])
  }

  /**
   * Decoding never touches rssi, packetGroup or deviceID; when it succeeds all three sections are
   * copied verbatim; when it fails, the fields of the sections checked before the failing one
   * are written and the later ones are not (no or a wrong-sized manufacturer section: nothing;
   * a wrong-sized service section: msd only; a wrong-sized TX power section: msd and uuid).
   */
  lemma DecodeIntoSpec(adv: seq<byte>, before: Sighting)
    ensures var r := DecodeInto(adv, before);
      && r.rssi == before.rssi && r.packetGroup == before.packetGroup && r.deviceId == before.deviceId
      && (DecodeFields(adv).Some? ==>
            var f := DecodeFields(adv).value;
            r.msd == f.msd && r.uuid == f.uuid && r.txPower == f.txPower)
      && (Lookup(adv, MsdType).None? ==> r == before)
      && (|SectionData(adv, MsdType)| != ManLen ==> r == before)
      && (|SectionData(adv, MsdType)| == ManLen && |SectionData(adv, ServiceDataType)| != ServiceLen ==>
            r == before.(msd := SectionData(adv, MsdType)))
      && (|SectionData(adv, MsdType)| == ManLen && |SectionData(adv, ServiceDataType)| == ServiceLen &&
          |SectionData(adv, TxPowerType)| != 1 ==>
            r == before.(msd := SectionData(adv, MsdType), uuid := SectionData(adv, ServiceDataType)))
  {
  }

  /** A payload that `ble_is_beacon` accepts passes the first (manufacturer data) step of decoding. */
  lemma BeaconPassesMsdStep(adv: seq<byte>)
    requires IsBeacon(adv)
    ensures |SectionData(adv, MsdType)| == ManLen && SectionData(adv, MsdType) == Tag
  {
  }

  /** A `ble_beacon_recived_t` reached through a pointer and written field by field. */
  class Received {
    var msd: Bytes4
    var uuid: Bytes4
    var txPower: byte
    var rssi: int8
    var packetGroup: int32
    var deviceId: int8

    function Value(): Sighting
      reads this
    {
      Sighting(msd, uuid, txPower, rssi, packetGroup, deviceId)
    }

    /** pvPortMalloc: a fresh block whose contents are whatever the memory held, here `garbage`. */
    constructor Alloc(garbage: Sighting)
      ensures Value() == garbage
    {
      msd := garbage.msd;
      uuid := garbage.uuid;
      txPower := garbage.txPower;
      rssi := garbage.rssi;
      packetGroup := garbage.packetGroup;
      deviceId := garbage.deviceId;
    }

    /**
     * ble_beacon_decode: checks the manufacturer data, then the service data, then the TX power,
     * copying each section into its field as it passes and returning ESP_FAIL at the first section
     * of the wrong size, so earlier fields are written and later ones keep their old values.
     */
    method Decode(adv: seq<byte>) returns (status: int)
      modifies this
      ensures status == (if DecodeFields(adv).Some? then EspOk else EspFail)
      ensures Value() == DecodeInto(adv, old(Value()))
    {
      var value := SectionData(adv, MsdType);
      var len := |value|;
      if len == ManLen {
        msd := value;
      } else {
        return EspFail;
      }

      value := SectionData(adv, ServiceDataType);
      len := |value|;
      if len == ServiceLen {
        uuid := value;
      } else {
        return EspFail;
      }

      value := SectionData(adv, TxPowerType);
      len := |value|;
      if len == 1 {
        txPower := value[0];
      } else {
        return EspFail;
      }

      return EspOk;
    }
  }

  /** A well-formed beacon advertisement: the tag, a 4-byte service-data UUID, a TX power byte. */
  function BeaconAdv(uuid: Bytes4, txPower: byte): seq<byte>
  {
    Encode([AdStructure(MsdType, Tag), AdStructure(ServiceDataType, uuid), AdStructure(TxPowerType, [txPower])])
  }

  lemma BeaconAdvDecodes(uuid: Bytes4, txPower: byte)
    ensures IsBeacon(BeaconAdv(uuid, txPower))
    ensures DecodeFields(BeaconAdv(uuid, txPower)) == Some(Fields(Tag, uuid, txPower))
  {
    var ss := [AdStructure(MsdType, Tag), AdStructure(ServiceDataType, uuid), AdStructure(TxPowerType, [txPower])];
    var adv := BeaconAdv(uuid, txPower);
    ParseEncode(ss);
    LookupFromParse(adv, 0, MsdType);
    LookupFromParse(adv, 0, ServiceDataType);
    LookupFromParse(adv, 0, TxPowerType);
    assert adv[0..] == adv;
    assert ss[1..] == [ss[1], ss[2]] && ss[1..][1..] == [ss[2]];
    assert Lookup(adv, MsdType) == Some(Tag);
    assert Lookup(adv, ServiceDataType) == FirstOfType(ss[1..], ServiceDataType) == Some(uuid);
    assert Lookup(adv, TxPowerType) == FirstOfType(ss[1..][1..], TxPowerType) == Some([txPower]);
  }

  /** A beacon advertisement that lacks the service-data section. */
  function NoUuidAdv(txPower: byte): seq<byte>
  {
    Encode([AdStructure(MsdType, Tag), AdStructure(TxPowerType, [txPower])])
  }

  lemma NoUuidAdvFailsDecode(txPower: byte)
    ensures IsBeacon(NoUuidAdv(txPower))
    ensures DecodeFields(NoUuidAdv(txPower)).None?
    ensures SectionData(NoUuidAdv(txPower), ServiceDataType) == []
  {
    var ss := [AdStructure(MsdType, Tag), AdStructure(TxPowerType, [txPower])];
    var adv := NoUuidAdv(txPower);
    ParseEncode(ss);
    LookupFromParse(adv, 0, MsdType);
    LookupFromParse(adv, 0, ServiceDataType);
    assert adv[0..] == adv;
    assert ss[1..] == [ss[1]] && ss[1..][1..] == [];
    assert Lookup(adv, MsdType) == Some(Tag);
    assert Lookup(adv, ServiceDataType) == FirstOfType(ss[1..][1..], ServiceDataType) == None;
  }
}
