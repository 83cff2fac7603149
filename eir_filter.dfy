/** The advertising filter `eir_found`: the callback `ad_parse` runs on each
    AD structure of a report. It looks only at the two 16-bit service UUID
    list types, skips a list whose payload is not a whole number of UUIDs,
    and asks the walk to stop as soon as the list names the Heart Rate
    service. This module holds the callback's pure decision and the UUID
    loop; the state it changes on a match lives in `HeartRateCentral`. */
module EirFilter {
  import opened Types
  import opened AdData

  /** AD type "Incomplete List of 16-bit Service Class UUIDs". */
  const BT_EIR_UUID16_SOME: byte := 0x02
  /** AD type "Complete List of 16-bit Service Class UUIDs". */
  const BT_EIR_UUID16_ALL: byte := 0x03
  /** The Heart Rate service UUID. */
  const BT_UUID_HRS: uint16 := 0x180D

  predicate IsUuid16List(kind: byte)
  {
    kind == BT_EIR_UUID16_SOME || kind == BT_EIR_UUID16_ALL
  }

  /** The `j`-th 16-bit UUID of a list: octets `2j` and `2j + 1`,
      little-endian. */
  function Uuid16At(list: seq<byte>, j: nat): (u: uint16)
    requires 2 * j + 1 < |list|
  {
    LeU16(list[2 * j], list[2 * j + 1])
  }

  /** `list` holds `u` as one of its whole 16-bit entries. */
  predicate ListsUuid16(list: seq<byte>, u: uint16)
  {
    exists j: nat | j < |list| / 2 :: Uuid16At(list, j) == u
  }

  /** A 16-bit UUID list whose payload is not a whole number of UUIDs:
      `eir_found` reports it as malformed and asks the walk to go on. */
  predicate MalformedList(eir: Eir)
  {
    IsUuid16List(eir.kind) && (eir.len - 1) % 2 != 0
  }

  /** The only octet pair that decodes to the Heart Rate UUID is `0D 18`. */
  lemma HrsOctets(lo: byte, hi: byte)
    ensures LeU16(lo, hi) == BT_UUID_HRS <==> lo == 0x0D && hi == 0x18
  {
    LeU16Injective(lo, hi, 0x0D, 0x18);
  }

  /** What `eir_found` answers `ad_parse`: `false` (stop) exactly when the
      element is a 16-bit UUID list of whole UUIDs naming the Heart Rate
      service. */
  predicate EirContinues(eir: Eir)
  {
    !(IsUuid16List(eir.kind) && |Payload(eir)| % 2 == 0 && ListsUuid16(Payload(eir), BT_UUID_HRS))
  }

  /** The UUID loop of `eir_found` with the bound `i < len - 1`, the length
      of the payload: it reads only payload octets, two at a time, and
      finds the Heart Rate service exactly when the list names it. The
      caller has already rejected a payload of odd length. */
  method ScanForHrs(eir: Eir) returns (found: bool)
    requires (eir.len - 1) % 2 == 0
    ensures found <==> ListsUuid16(Payload(eir), BT_UUID_HRS)
  {
    var i := 0;
    while i < eir.len - 1
      invariant 0 <= i <= eir.len - 1 && i % 2 == 0
      invariant forall j: nat :: j < i / 2 ==> Uuid16At(Payload(eir), j) != BT_UUID_HRS
    {
      if LeU16(eir.data[i], eir.data[i + 1]) == BT_UUID_HRS {
        assert Uuid16At(Payload(eir), i / 2) == BT_UUID_HRS;
        return true;
      }
      i := i + 2;
    }
    return false;
  }

  /** The outcome of the UUID loop exactly as written, with the bound
      `i < len`: it matched, it ran out, or it read an octet beyond the
      end of the advertising data. */
  datatype LoopOutcome = Match | NoMatch | ReadsPastBuffer

  /** The loop as written, from index `i` on: it compares the pair at `i`,
      `i + 1` of `eir->data` while `i < len`, so on a payload of even
      length its last pair is `len - 1`, `len`, the two octets after the
      payload. */
  function ScanAsWritten(eir: Eir, i: nat): (r: LoopOutcome)
    ensures r == ReadsPastBuffer ==> i < eir.len && eir.len + 1 > |eir.data|
    ensures r == Match ==> exists k: nat | i <= k < eir.len && (k - i) % 2 == 0 && k + 1 < |eir.data| :: LeU16(eir.data[k], eir.data[k + 1]) == BT_UUID_HRS
    decreases eir.len - i
  {
    if i >= eir.len then NoMatch
    else if i + 1 >= |eir.data| then ReadsPastBuffer
    else if LeU16(eir.data[i], eir.data[i + 1]) == BT_UUID_HRS then Match
    else ScanAsWritten(eir, i + 2)
  }

  /** The loop as written agrees with the intended one on the payload and
      then makes one extra comparison: of the two octets that follow the
      payload (the next structure's length and type octets), or a read
      beyond the advertising data when there are not two such octets. */
  lemma AsWrittenComparesOneExtraPair(eir: Eir)
    requires (eir.len - 1) % 2 == 0
    ensures ScanAsWritten(eir, 0) ==
      if ListsUuid16(Payload(eir), BT_UUID_HRS) then Match
      else if eir.len + 1 > |eir.data| then ReadsPastBuffer
      else if LeU16(eir.data[eir.len - 1], eir.data[eir.len]) == BT_UUID_HRS then Match
      else NoMatch
  {
    AsWrittenFrom(eir, 0);
  }

  lemma {:induction false} AsWrittenFrom(eir: Eir, i: nat)
    requires (eir.len - 1) % 2 == 0 && i % 2 == 0 && i <= eir.len - 1
    ensures ScanAsWritten(eir, i) ==
      if exists j: nat | i / 2 <= j < (eir.len - 1) / 2 :: Uuid16At(Payload(eir), j) == BT_UUID_HRS then Match
      else if eir.len + 1 > |eir.data| then ReadsPastBuffer
      else if LeU16(eir.data[eir.len - 1], eir.data[eir.len]) == BT_UUID_HRS then Match
      else NoMatch
    decreases eir.len - i
  {
    if i < eir.len - 1 {
      assert Uuid16At(Payload(eir), i / 2) == LeU16(eir.data[i], eir.data[i + 1]);
      AsWrittenFrom(eir, i + 2);
      if LeU16(eir.data[i], eir.data[i + 1]) != BT_UUID_HRS {
        forall j: nat | i / 2 <= j < (eir.len - 1) / 2 && Uuid16At(Payload(eir), j) == BT_UUID_HRS
          ensures (i + 2) / 2 <= j
        {
        }
      }
    }
  }

  /** The loop as written connects on a list that does not name the Heart
      Rate service exactly when the two octets after it are `0D 18` (the
      header of a structure of length 13 and type 0x18, or the last two
      octets of the data): they are read as the UUID 0x180D. */
  lemma AsWrittenFalseMatch(eir: Eir)
    requires (eir.len - 1) % 2 == 0 && eir.len + 1 <= |eir.data|
    requires !ListsUuid16(Payload(eir), BT_UUID_HRS)
    ensures ScanAsWritten(eir, 0) == Match <==> eir.data[eir.len - 1] == 0x0D && eir.data[eir.len] == 0x18
  {
    AsWrittenComparesOneExtraPair(eir);
    HrsOctets(eir.data[eir.len - 1], eir.data[eir.len]);
  }

  /** An advertisement whose UUID list names only 0x0201, followed by a
      structure of length 13 and type 0x18: the loop as written reads that
      structure's header as the UUID 0x180D and connects to a device that
      does not advertise the Heart Rate service. */
  lemma AsWrittenMatchesNextHeader()
    ensures var ad: seq<byte> := [3, 0x03, 0x01, 0x02, 13, 0x18] + seq(12, _ => 0);
      var eir: Eir := Element(ad[0], ad[1], ad[2..]);
      ScanAsWritten(eir, 0) == Match && !ListsUuid16(Payload(eir), BT_UUID_HRS) && EirContinues(eir)
  {
    var ad: seq<byte> := [3, 0x03, 0x01, 0x02, 13, 0x18] + seq(12, _ => 0);
    var eir: Eir := Element(ad[0], ad[1], ad[2..]);
    AsWrittenComparesOneExtraPair(eir);
    assert Payload(eir) == [0x01, 0x02];
    assert Uuid16At(Payload(eir), 0) == 0x0201;
  }

  /** A UUID list that is the last structure of the advertising data: the
      loop as written reads past the end of the data. */
  lemma AsWrittenReadsPastLastStructure()
    ensures var eir: Eir := Element(3, 0x03, [0x01, 0x02]);
      ScanAsWritten(eir, 0) == ReadsPastBuffer && EirContinues(eir)
  {
    var eir: Eir := Element(3, 0x03, [0x01, 0x02]);
    AsWrittenComparesOneExtraPair(eir);
    assert Payload(eir) == [0x01, 0x02];
    assert Uuid16At(Payload(eir), 0) == 0x0201;
  }
}
