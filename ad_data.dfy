/**
 * The advertising-data format of the Bluetooth Core Specification, Volume 3, Part C, section 11:
 * a payload is a run of AD structures, each a Length octet followed by Length octets holding one
 * AD Type octet and Length - 1 octets of AD Data. A zero Length octet ends the significant part.
 *
 * `Lookup` stands in for the ESP-IDF call `esp_ble_resolve_adv_data`, whose code is not part of
 * this model: it scans the payload octet by octet for the first AD structure of a given type.
 * `Parse` and `FirstOfType` are an independent reference definition of the same lookup over the
 * parsed list; `LookupSpec` connects the two.
 */
module AdData {
  import opened Wrappers

  datatype AdStructure = AdStructure(adType: byte, data: seq<byte>)

  /**
   * The AD structures of a payload, in order. Parsing stops at the end of the payload, at a zero
   * Length octet, or at a structure whose Length runs past the end of the payload.
   */
  function Parse(adv: seq<byte>): (ss: seq<AdStructure>)
    ensures |ss| <= |adv|
    decreases |adv|
  {
    if |adv| == 0 then []
    else
      var len: int := adv[0];
      if len == 0 || |adv| < len + 1 then []
      else [AdStructure(adv[1], adv[2..len + 1])] + Parse(adv[len + 1..])
  }

  /** The octets that carry a list of AD structures. */
  function Encode(ss: seq<AdStructure>): (adv: seq<byte>)
    requires WellFormed(ss)
  {
    if ss == [] then []
    else [|ss[0].data| + 1, ss[0].adType] + ss[0].data + Encode(ss[1..])
  }

  /** Every structure's Length octet (the type octet plus the data) fits in one octet. */
  predicate WellFormed(ss: seq<AdStructure>)
  {
    forall i :: 0 <= i < |ss| ==> |ss[i].data| < 0xFF
  }

  lemma {:induction false} ParseEncode(ss: seq<AdStructure>)
    requires WellFormed(ss)
    ensures Parse(Encode(ss)) == ss
  {
    if ss != [] {
      var head := [|ss[0].data| + 1, ss[0].adType] + ss[0].data;
      var adv := Encode(ss);
      assert WellFormed(ss[1..]) by {
        forall i | 0 <= i < |ss[1..]| ensures |ss[1..][i].data| < 0xFF {
          assert ss[1..][i] == ss[i + 1];
        }
      }
      assert adv == head + Encode(ss[1..]);
      assert adv[0] == |ss[0].data| + 1 && adv[1] == ss[0].adType;
      assert adv[2..adv[0] + 1] == ss[0].data;
      assert adv[adv[0] + 1..] == Encode(ss[1..]);
      ParseEncode(ss[1..]);
    }
  }

  /** Reference definition: the data of the first structure of type `t` in a parsed list. */
  function FirstOfType(ss: seq<AdStructure>, t: byte): Option<seq<byte>>
  {
    if ss == [] then None
    else if ss[0].adType == t then Some(ss[0].data)
    else FirstOfType(ss[1..], t)
  }

  /** `i` is the index of the first structure of type `t`. */
  predicate IsFirstOfType(ss: seq<AdStructure>, t: byte, i: int)
  {
    0 <= i < |ss| && ss[i].adType == t && forall j :: 0 <= j < i ==> ss[j].adType != t
  }

  /** There is only one first structure of a given type. */
  lemma FirstOfTypeUnique(ss: seq<AdStructure>, t: byte, i: int, k: int)
    requires IsFirstOfType(ss, t, i) && IsFirstOfType(ss, t, k)
    ensures i == k
  {
  }

  /** The octet-level scan from offset `pos`, as the stack walks the payload. */
  function LookupFrom(adv: seq<byte>, pos: nat, t: byte): Option<seq<byte>>
    decreases |adv| - pos
  {
    if pos >= |adv| then None
    else
      var len: int := adv[pos];
      if len == 0 || |adv| < pos + len + 1 then None
      else if adv[pos + 1] == t then Some(adv[pos + 2..pos + len + 1])
      else LookupFrom(adv, pos + len + 1, t)
  }

  /** The data of the first AD structure of type `t` in the payload, if there is one. */
  function Lookup(adv: seq<byte>, t: byte): Option<seq<byte>>
  {
    LookupFrom(adv, 0, t)
  }

  lemma {:induction false} LookupFromParse(adv: seq<byte>, pos: nat, t: byte)
    requires pos <= |adv|
    ensures LookupFrom(adv, pos, t) == FirstOfType(Parse(adv[pos..]), t)
    decreases |adv| - pos
  {
    if pos < |adv| {
      var len: int := adv[pos];
      ParseAt(adv, pos);
      if len != 0 && pos + len + 1 <= |adv| && adv[pos + 1] != t {
        LookupFromParse(adv, pos + len + 1, t);
      }
    }
  }

  /** Parsing from offset `pos` reads the structure whose Length octet is at `pos`. */
  lemma ParseAt(adv: seq<byte>, pos: nat)
    requires pos < |adv|
    ensures var len: int := adv[pos];
      if len == 0 || |adv| < pos + len + 1 then Parse(adv[pos..]) == []
      else Parse(adv[pos..]) == [AdStructure(adv[pos + 1], adv[pos + 2..pos + len + 1])] + Parse(adv[pos + len + 1..])
  {
    var rest := adv[pos..];
    var len: int := adv[pos];
    assert rest[0] == len;
    if len != 0 && pos + len + 1 <= |adv| {
      assert rest[1] == adv[pos + 1];
      assert rest[2..len + 1] == adv[pos + 2..pos + len + 1];
      assert rest[len + 1..] == adv[pos + len + 1..];
    }
  }

  lemma {:induction false} FirstOfTypeSpec(ss: seq<AdStructure>, t: byte)
    ensures FirstOfType(ss, t).None? <==> forall i :: 0 <= i < |ss| ==> ss[i].adType != t
    ensures FirstOfType(ss, t).Some? ==>
      exists i :: IsFirstOfType(ss, t, i) && ss[i].data == FirstOfType(ss, t).value
  {
    if ss != [] {
      FirstOfTypeSpec(ss[1..], t);
      if ss[0].adType == t {
        assert IsFirstOfType(ss, t, 0);
      } else {
        assert forall i :: 1 <= i < |ss| ==> ss[i] == ss[1..][i - 1];
        if FirstOfType(ss[1..], t).Some? {
          var i :| IsFirstOfType(ss[1..], t, i) && ss[1..][i].data == FirstOfType(ss[1..], t).value;
          assert IsFirstOfType(ss, t, i + 1);
        }
      }
    }
  }

  /**
   * The lookup finds nothing exactly when no structure has type `t`, and otherwise yields the
   * data of the first structure of type `t`, verbatim.
   */
  lemma LookupSpec(adv: seq<byte>, t: byte)
    ensures Lookup(adv, t).None? <==> forall i :: 0 <= i < |Parse(adv)| ==> Parse(adv)[i].adType != t
    ensures Lookup(adv, t).Some? ==>
      exists i :: IsFirstOfType(Parse(adv), t, i) && Parse(adv)[i].data == Lookup(adv, t).value
  {
    LookupFromParse(adv, 0, t);
    assert adv[0..] == adv;
    FirstOfTypeSpec(Parse(adv), t);
  }

  /** If some structure has type `t`, the lookup finds something. */
  lemma LookupFound(adv: seq<byte>, t: byte, i: int)
    requires 0 <= i < |Parse(adv)| && Parse(adv)[i].adType == t
    ensures Lookup(adv, t).Some?
  {
    LookupSpec(adv, t);
  }

  /** A structure's data has at most 254 octets, so the length the stack reports fits a uint8_t. */
  lemma {:induction false} LookupFromShort(adv: seq<byte>, pos: nat, t: byte)
    ensures LookupFrom(adv, pos, t).Some? ==> |LookupFrom(adv, pos, t).value| < 0xFF
    decreases |adv| - pos
  {
    if pos < |adv| {
      var len: int := adv[pos];
      if len != 0 && pos + len + 1 <= |adv| && adv[pos + 1] != t {
        LookupFromShort(adv, pos + len + 1, t);
      }
    }
  }
}
