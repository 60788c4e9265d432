/** The prize tracking ticket: a 107-byte account, one per auction manager and
    master-edition mint, that freezes the master edition's supply the first time
    an edition is redeemed and counts the redemptions since.

    Layout (integers little-endian):
      key (1) | metadata (32) | supply snapshot (8) | expected redemptions (8) | redemptions (8) | padding (50) */
module PrizeTracking {
  import opened MetaplexTypes
  import opened LittleEndian

  /** `MAX_PRIZE_TRACKING_TICKET_SIZE` */
  const TICKET_SIZE: nat := 107

  const METADATA_OFFSET: nat := 1
  const SUPPLY_SNAPSHOT_OFFSET: nat := 33
  const EXPECTED_REDEMPTIONS_OFFSET: nat := 41
  const REDEMPTIONS_OFFSET: nat := 49
  const PADDING_OFFSET: nat := 57

  const PUBKEY_LENGTH: nat := 32
  const PADDING_LENGTH: nat := 50

  /** `Key::PrizeTrackingTicketV1 as u8` */
  const PRIZE_TRACKING_TICKET_V1: u8 := 8

  /** The fields of a ticket. */
  datatype TicketRecord = TicketRecord(
    key: u8,
    metadata: seq<u8>,
    supplySnapshot: u64,
    expectedRedemptions: u64,
    redemptions: u64,
    padding: seq<u8>)

  predicate WellFormed(t: TicketRecord)
  {
    |t.metadata| == PUBKEY_LENGTH && |t.padding| == PADDING_LENGTH
  }

  function Zeros(n: nat): (z: seq<u8>)
    ensures |z| == n && forall i :: 0 <= i < n ==> z[i] == 0
  {
    seq(n, _ => 0)
  }

  /** The bytes of a ticket, in the layout above. */
  function EncodeTicket(t: TicketRecord): (bytes: seq<u8>)
    requires WellFormed(t)
    ensures |bytes| == TICKET_SIZE
  {
    [t.key] + t.metadata + U64ToLe(t.supplySnapshot) + U64ToLe(t.expectedRedemptions)
      + U64ToLe(t.redemptions) + t.padding
  }

  /** The fields of a ticket read from its bytes. */
  function DecodeTicket(bytes: seq<u8>): (t: TicketRecord)
    requires |bytes| == TICKET_SIZE
    ensures WellFormed(t)
  {
    TicketRecord(
      bytes[0],
      bytes[METADATA_OFFSET..SUPPLY_SNAPSHOT_OFFSET],
      U64FromLe(bytes[SUPPLY_SNAPSHOT_OFFSET..EXPECTED_REDEMPTIONS_OFFSET]),
      U64FromLe(bytes[EXPECTED_REDEMPTIONS_OFFSET..REDEMPTIONS_OFFSET]),
      U64FromLe(bytes[REDEMPTIONS_OFFSET..PADDING_OFFSET]),
      bytes[PADDING_OFFSET..])
  }

  lemma DecodeEncode(t: TicketRecord)
    requires WellFormed(t)
    ensures DecodeTicket(EncodeTicket(t)) == t
  {
    var b := EncodeTicket(t);
    assert b[METADATA_OFFSET..SUPPLY_SNAPSHOT_OFFSET] == t.metadata;
    assert b[SUPPLY_SNAPSHOT_OFFSET..EXPECTED_REDEMPTIONS_OFFSET] == U64ToLe(t.supplySnapshot);
    assert b[EXPECTED_REDEMPTIONS_OFFSET..REDEMPTIONS_OFFSET] == U64ToLe(t.expectedRedemptions);
    assert b[REDEMPTIONS_OFFSET..PADDING_OFFSET] == U64ToLe(t.redemptions);
    assert b[PADDING_OFFSET..] == t.padding;
    LeBytesRoundTrip(t.supplySnapshot, 8);
    LeBytesRoundTrip(t.expectedRedemptions, 8);
    LeBytesRoundTrip(t.redemptions, 8);
    EightBytesHoldU64();
  }

  lemma EncodeDecode(bytes: seq<u8>)
    requires |bytes| == TICKET_SIZE
    ensures EncodeTicket(DecodeTicket(bytes)) == bytes
  {
    assert bytes == bytes[..1] + bytes[METADATA_OFFSET..SUPPLY_SNAPSHOT_OFFSET]
      + bytes[SUPPLY_SNAPSHOT_OFFSET..EXPECTED_REDEMPTIONS_OFFSET]
      + bytes[EXPECTED_REDEMPTIONS_OFFSET..REDEMPTIONS_OFFSET]
      + bytes[REDEMPTIONS_OFFSET..PADDING_OFFSET] + bytes[PADDING_OFFSET..];
  }

  /** `u64::from_le_bytes(*supply_snapshot_ptr)` */
  function StoredSnapshot(bytes: seq<u8>): (s: u64)
    requires |bytes| == TICKET_SIZE
    ensures s == DecodeTicket(bytes).supplySnapshot
  {
    U64FromLe(bytes[SUPPLY_SNAPSHOT_OFFSET..EXPECTED_REDEMPTIONS_OFFSET])
  }

  /** The bytes written into a freshly allocated, zero-filled ticket. */
  function CreatedTicket(metadataKey: seq<u8>, supplySnapshot: u64, expectedRedemptions: u64): (bytes: seq<u8>)
    requires |metadataKey| == PUBKEY_LENGTH
    ensures |bytes| == TICKET_SIZE
    ensures DecodeTicket(bytes)
            == TicketRecord(PRIZE_TRACKING_TICKET_V1, metadataKey, supplySnapshot, expectedRedemptions, 1, Zeros(PADDING_LENGTH))
  {
    var t := TicketRecord(PRIZE_TRACKING_TICKET_V1, metadataKey, supplySnapshot, expectedRedemptions, 1, Zeros(PADDING_LENGTH));
    DecodeEncode(t);
    EncodeTicket(t)
  }

  /** The bytes of an existing ticket after its redemption counter is
      incremented, or an overflow error when the counter is at u64::MAX. */
  function BumpRedemptions(bytes: seq<u8>): (r: Result<seq<u8>>)
    requires |bytes| == TICKET_SIZE
    ensures r.Ok? <==> DecodeTicket(bytes).redemptions < U64_MAX
    ensures r.Err? ==> r.error == NumericalOverflowError
    ensures r.Ok? ==> |r.value| == TICKET_SIZE
    ensures r.Ok? ==>
      DecodeTicket(r.value) == DecodeTicket(bytes).(redemptions := DecodeTicket(bytes).redemptions + 1)
    ensures r.Ok? ==> forall i :: 0 <= i < TICKET_SIZE && !(REDEMPTIONS_OFFSET <= i < PADDING_OFFSET)
                                  ==> r.value[i] == bytes[i]
  {
    match CheckedAdd(U64FromLe(bytes[REDEMPTIONS_OFFSET..PADDING_OFFSET]), 1)
    case Err(e) => Err(e)
    case Ok(next) =>
      var updated := bytes[..REDEMPTIONS_OFFSET] + U64ToLe(next) + bytes[PADDING_OFFSET..];
      assert updated[..REDEMPTIONS_OFFSET] == bytes[..REDEMPTIONS_OFFSET];
      assert updated[REDEMPTIONS_OFFSET..PADDING_OFFSET] == U64ToLe(next);
      assert updated[PADDING_OFFSET..] == bytes[PADDING_OFFSET..];
      assert updated[METADATA_OFFSET..SUPPLY_SNAPSHOT_OFFSET] == bytes[METADATA_OFFSET..SUPPLY_SNAPSHOT_OFFSET];
      assert updated[SUPPLY_SNAPSHOT_OFFSET..EXPECTED_REDEMPTIONS_OFFSET]
          == bytes[SUPPLY_SNAPSHOT_OFFSET..EXPECTED_REDEMPTIONS_OFFSET];
      assert updated[EXPECTED_REDEMPTIONS_OFFSET..REDEMPTIONS_OFFSET]
          == bytes[EXPECTED_REDEMPTIONS_OFFSET..REDEMPTIONS_OFFSET];
      Ok(updated)
  }

  /** The ticket after k further redemptions, each incrementing the counter. */
  function BumpTimes(bytes: seq<u8>, k: nat): (r: Result<seq<u8>>)
    requires |bytes| == TICKET_SIZE
    ensures r.Ok? ==> |r.value| == TICKET_SIZE
    decreases k
  {
    if k == 0 then Ok(bytes)
    else match BumpRedemptions(bytes)
      case Err(e) => Err(e)
      case Ok(next) => BumpTimes(next, k - 1)
  }

  /** k redemptions against an existing ticket leave everything but the counter
      as it was and add k to the counter, as long as the counter does not overflow. */
  lemma {:induction false} BumpTimesKeepsRecord(bytes: seq<u8>, k: nat)
    requires |bytes| == TICKET_SIZE
    requires DecodeTicket(bytes).redemptions + k <= U64_MAX
    ensures BumpTimes(bytes, k).Ok?
    ensures DecodeTicket(BumpTimes(bytes, k).value)
            == DecodeTicket(bytes).(redemptions := DecodeTicket(bytes).redemptions + k)
    decreases k
  {
    if k > 0 {
      var next := BumpRedemptions(bytes).value;
      BumpTimesKeepsRecord(next, k - 1);
    }
  }

  /** k redemptions that would take the counter past u64::MAX fail with an
      overflow error instead of wrapping around. */
  lemma {:induction false} BumpTimesOverflows(bytes: seq<u8>, k: nat)
    requires |bytes| == TICKET_SIZE
    requires DecodeTicket(bytes).redemptions + k > U64_MAX
    ensures BumpTimes(bytes, k) == Err(NumericalOverflowError)
    decreases k
  {
    var r := DecodeTicket(bytes).redemptions;
    if r < U64_MAX {
      var next := BumpRedemptions(bytes).value;
      BumpTimesOverflows(next, k - 1);
    }
  }

  /** The ledger's lifecycle: after creation and k later redemptions the ticket
      holds the creation's snapshot and expected redemptions and counts 1 + k. */
  lemma Lifecycle(metadataKey: seq<u8>, supplySnapshot: u64, expectedRedemptions: u64, k: nat)
    requires |metadataKey| == PUBKEY_LENGTH
    requires k < U64_MAX
    ensures BumpTimes(CreatedTicket(metadataKey, supplySnapshot, expectedRedemptions), k).Ok?
    ensures DecodeTicket(BumpTimes(CreatedTicket(metadataKey, supplySnapshot, expectedRedemptions), k).value)
            == TicketRecord(PRIZE_TRACKING_TICKET_V1, metadataKey, supplySnapshot, expectedRedemptions, 1 + k,
                            Zeros(PADDING_LENGTH))
  {
    BumpTimesKeepsRecord(CreatedTicket(metadataKey, supplySnapshot, expectedRedemptions), k);
  }

  /** The supply snapshot is frozen: after creation and any k later
      redemptions, the snapshot read back is the one written at creation. */
  lemma SnapshotFrozen(metadataKey: seq<u8>, supplySnapshot: u64, expectedRedemptions: u64, k: nat)
    requires |metadataKey| == PUBKEY_LENGTH
    requires k < U64_MAX
    ensures BumpTimes(CreatedTicket(metadataKey, supplySnapshot, expectedRedemptions), k).Ok?
    ensures StoredSnapshot(BumpTimes(CreatedTicket(metadataKey, supplySnapshot, expectedRedemptions), k).value)
            == supplySnapshot
  {
    Lifecycle(metadataKey, supplySnapshot, expectedRedemptions, k);
  }

  /** `copy_from_slice`, and the assignment of a `to_le_bytes` array, into the
      sub-array of `a` that starts at `offset`. */
  method CopyInto(a: array<u8>, offset: nat, src: seq<u8>)
    requires offset + |src| <= a.Length
    modifies a
    ensures forall i :: 0 <= i < a.Length ==>
      a[i] == if offset <= i < offset + |src| then src[i - offset] else old(a[i])
  {
    forall i | 0 <= i < |src| {
      a[offset + i] := src[i];
    }
  }

  /** The bytes of an encoded ticket, field by field. */
  lemma EncodeTicketAt(t: TicketRecord, i: nat)
    requires WellFormed(t) && i < TICKET_SIZE
    ensures EncodeTicket(t)[i] ==
      if i < METADATA_OFFSET then t.key
      else if i < SUPPLY_SNAPSHOT_OFFSET then t.metadata[i - METADATA_OFFSET]
      else if i < EXPECTED_REDEMPTIONS_OFFSET then U64ToLe(t.supplySnapshot)[i - SUPPLY_SNAPSHOT_OFFSET]
      else if i < REDEMPTIONS_OFFSET then U64ToLe(t.expectedRedemptions)[i - EXPECTED_REDEMPTIONS_OFFSET]
      else if i < PADDING_OFFSET then U64ToLe(t.redemptions)[i - REDEMPTIONS_OFFSET]
      else t.padding[i - PADDING_OFFSET]
  {
  }

  /** Bytes that hold every field of `t` at its offset are the encoding of `t`. */
  lemma EncodeTicketFieldwise(t: TicketRecord, bytes: seq<u8>)
    requires WellFormed(t) && |bytes| == TICKET_SIZE
    requires bytes[0] == t.key
    requires bytes[METADATA_OFFSET..SUPPLY_SNAPSHOT_OFFSET] == t.metadata
    requires bytes[SUPPLY_SNAPSHOT_OFFSET..EXPECTED_REDEMPTIONS_OFFSET] == U64ToLe(t.supplySnapshot)
    requires bytes[EXPECTED_REDEMPTIONS_OFFSET..REDEMPTIONS_OFFSET] == U64ToLe(t.expectedRedemptions)
    requires bytes[REDEMPTIONS_OFFSET..PADDING_OFFSET] == U64ToLe(t.redemptions)
    requires bytes[PADDING_OFFSET..] == t.padding
    ensures bytes == EncodeTicket(t)
  {
    forall i | 0 <= i < TICKET_SIZE
      ensures bytes[i] == EncodeTicket(t)[i]
    {
      EncodeTicketAt(t, i);
    }
  }

  /** Writes a new record into a freshly allocated, zero-filled ticket, in the
      order `create_or_update_prize_tracking` writes its fields. */
  method WriteCreatedTicket(a: array<u8>, metadataAccountKey: seq<u8>, supplySnapshot: u64, expectedRedemptions: u64)
    requires a.Length == TICKET_SIZE && |metadataAccountKey| == PUBKEY_LENGTH
    requires forall i :: 0 <= i < a.Length ==> a[i] == 0
    modifies a
    ensures a[..] == CreatedTicket(metadataAccountKey, supplySnapshot, expectedRedemptions)
  {
    a[0] := PRIZE_TRACKING_TICKET_V1;
    CopyInto(a, METADATA_OFFSET, metadataAccountKey);
    CopyInto(a, SUPPLY_SNAPSHOT_OFFSET, U64ToLe(supplySnapshot));
    CopyInto(a, REDEMPTIONS_OFFSET, U64ToLe(1));
    CopyInto(a, EXPECTED_REDEMPTIONS_OFFSET, U64ToLe(expectedRedemptions));
    var t := TicketRecord(PRIZE_TRACKING_TICKET_V1, metadataAccountKey, supplySnapshot, expectedRedemptions, 1,
                          Zeros(PADDING_LENGTH));
    ghost var bytes := a[..];
    assert bytes[0] == t.key;
    assert bytes[METADATA_OFFSET..SUPPLY_SNAPSHOT_OFFSET] == t.metadata;
    assert bytes[SUPPLY_SNAPSHOT_OFFSET..EXPECTED_REDEMPTIONS_OFFSET] == U64ToLe(t.supplySnapshot);
    assert bytes[EXPECTED_REDEMPTIONS_OFFSET..REDEMPTIONS_OFFSET] == U64ToLe(t.expectedRedemptions);
    assert bytes[REDEMPTIONS_OFFSET..PADDING_OFFSET] == U64ToLe(t.redemptions);
    assert bytes[PADDING_OFFSET..] == t.padding;
    EncodeTicketFieldwise(t, bytes);
  }

  /** The ticket account: empty until the first redemption allocates it, then
      holding TICKET_SIZE bytes that each later redemption updates in place. */
  class PrizeTrackingTicket {
    var data: array<u8>

    ghost predicate Valid()
      reads this
    {
      data.Length == 0 || data.Length == TICKET_SIZE
    }

    /** `AccountInfo::data_is_empty` */
    predicate DataIsEmpty()
      reads this
    {
      data.Length == 0
    }

    /** A ticket account that does not hold a record yet. */
    constructor Absent()
      ensures Valid() && DataIsEmpty() && fresh(data)
    {
      data := new u8[0];
    }

    /** A ticket account that already holds a record. */
    constructor Holding(bytes: seq<u8>)
      requires |bytes| == TICKET_SIZE
      ensures Valid() && fresh(data) && data[..] == bytes
    {
      data := new u8[TICKET_SIZE](i requires 0 <= i < TICKET_SIZE => bytes[i]);
    }

    /** `create_or_update_prize_tracking`, after its address derivation: on an
        empty account allocate the ticket and write a fresh record; otherwise
        increment its redemption counter. Returns the supply snapshot. */
    method CreateOrUpdate(metadataAccountKey: seq<u8>, masterEditionSupply: u64, expectedRedemptions: u64)
      returns (r: Result<u64>)
      requires Valid() && |metadataAccountKey| == PUBKEY_LENGTH
      modifies this, data
      ensures Valid()
      ensures old(DataIsEmpty()) ==>
        fresh(data) && r == Ok(masterEditionSupply) &&
        data[..] == CreatedTicket(metadataAccountKey, masterEditionSupply, expectedRedemptions)
      ensures !old(DataIsEmpty()) ==> data == old(data)
      ensures !old(DataIsEmpty()) && BumpRedemptions(old(data[..])).Ok? ==>
        r == Ok(StoredSnapshot(old(data[..]))) && data[..] == BumpRedemptions(old(data[..])).value
      ensures !old(DataIsEmpty()) && BumpRedemptions(old(data[..])).Err? ==>
        r == Err(NumericalOverflowError) && data[..] == old(data[..])
    {
      if data.Length == 0 {
        data := new u8[TICKET_SIZE](_ => 0);
        var snapshot := masterEditionSupply;
        WriteCreatedTicket(data, metadataAccountKey, snapshot, expectedRedemptions);
        r := Ok(snapshot);
      } else {
        var snapshot := U64FromLe(data[SUPPLY_SNAPSHOT_OFFSET..EXPECTED_REDEMPTIONS_OFFSET]);
        var next := CheckedAdd(U64FromLe(data[REDEMPTIONS_OFFSET..PADDING_OFFSET]), 1);
        if next.Err? {
          return Err(NumericalOverflowError);
        }
        ghost var before := data[..];
        CopyInto(data, REDEMPTIONS_OFFSET, U64ToLe(next.value));
        assert data[..] == BumpRedemptions(before).value by {
          var after := BumpRedemptions(before).value;
          forall i | 0 <= i < TICKET_SIZE ensures data[..][i] == after[i] {
            if REDEMPTIONS_OFFSET <= i < PADDING_OFFSET {
              assert after[REDEMPTIONS_OFFSET..PADDING_OFFSET] == U64ToLe(next.value);
            }
          }
        }
        r := Ok(snapshot);
      }
    }
  }

  /** Two redemptions against one ticket, the first creating it: both see the
      supply frozen at creation, even when the master edition's supply has
      changed by the second; the counter stands at 2, and the expected
      redemptions are those given at creation, whatever the second call passes. */
  method RedeemTwice(metadataAccountKey: seq<u8>, masterEditionSupply: u64, laterSupply: u64,
                     firstExpected: u64, laterExpected: u64)
    returns (first: Result<u64>, second: Result<u64>, record: TicketRecord)
    requires |metadataAccountKey| == PUBKEY_LENGTH
    ensures first == Ok(masterEditionSupply) && second == Ok(masterEditionSupply)
    ensures record == TicketRecord(PRIZE_TRACKING_TICKET_V1, metadataAccountKey, masterEditionSupply, firstExpected, 2,
                                   Zeros(PADDING_LENGTH))
  {
    var ticket := new PrizeTrackingTicket.Absent();
    first := ticket.CreateOrUpdate(metadataAccountKey, masterEditionSupply, firstExpected);
    second := ticket.CreateOrUpdate(metadataAccountKey, laterSupply, laterExpected);
    record := DecodeTicket(ticket.data[..]);
  }
}
