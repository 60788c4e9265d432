/** The edition allocation of `process_redeem_printing_v2_bid`: a winner redeems
    a printing-v2 prize by choosing an edition offset inside its window; the
    offset, shifted by the supply frozen in the prize tracking ticket, is the
    number of the edition that is minted. */
module RedeemPrintingV2Bid {
  import opened MetaplexTypes
  import opened EditionWindow
  import opened PrizeTracking

  /** What the allocation step hands on: nothing (the bid is not a printing
      prize to mint, control goes straight to the final bookkeeping), or the
      number of the edition to mint. */
  datatype Redemption = Skipped | Minted(actualEdition: u64)

  /** Whether the allocation step runs at all: the auction is not cancelled and
      the bid holds a winning placement that exists. */
  predicate Allocates(cancelled: bool, winIndex: Option<nat>, configs: seq<WinningConfig>)
  {
    !cancelled && winIndex.Some? && winIndex.value < |configs|
  }

  /** `edition_offset.checked_add(supply_snapshot)` */
  function ActualEdition(editionOffset: u64, supplySnapshot: u64): (r: Result<u64>)
    ensures r.Ok? <==> editionOffset + supplySnapshot <= U64_MAX
    ensures r.Ok? ==> r.value == editionOffset + supplySnapshot
    ensures r.Err? ==> r.error == NumericalOverflowError
  {
    CheckedAdd(editionOffset, supplySnapshot)
  }

  /** Against one frozen supply snapshot, the editions of all placements
      occupy [snapshot + 1, snapshot + 1 + total) and no two placements, and
      no two offsets, get the same edition number. */
  lemma ActualEditionsDistinct(configs: seq<WinningConfig>, order: u8, i: nat, j: nat,
                               offsetI: u64, offsetJ: u64, supplySnapshot: u64)
    requires i < |configs| && j < |configs|
    requires InWindow(configs, order, i, offsetI) && InWindow(configs, order, j, offsetJ)
    requires ActualEdition(offsetI, supplySnapshot).Ok? && ActualEdition(offsetJ, supplySnapshot).Ok?
    ensures supplySnapshot < ActualEdition(offsetI, supplySnapshot).value
                           < supplySnapshot + 1 + TotalClaimed(configs, order)
    ensures (i, offsetI) != (j, offsetJ) ==>
              ActualEdition(offsetI, supplySnapshot).value != ActualEdition(offsetJ, supplySnapshot).value
  {
    WindowWithinTotal(configs, order, i, offsetI);
    if i != j && offsetI == offsetJ {
      WindowsDisjoint(configs, order, i, j, offsetI);
    }
  }

  /** The edition to mint, or the error that computing it raised. */
  function MintOrFail(actualEdition: Result<u64>): (r: Result<Redemption>)
    ensures r.Ok? <==> actualEdition.Ok?
    ensures r.Ok? ==> r.value == Minted(actualEdition.value)
    ensures r.Err? ==> r.error == actualEdition.error
  {
    match actualEdition
    case Ok(e) => Ok(Minted(e))
    case Err(err) => Err(err)
  }

  /** The allocation section of `process_redeem_printing_v2_bid`, from the
      cancellation check to the computation of the edition to mint.
      `winningConfigItem` is the item `common_winning_config_checks` found for
      the placement, `safetyDepositBoxOrder` the order of its safety deposit
      box, and `masterEditionSupply` the master edition's current supply. */
  method ProcessRedeemPrintingV2Bid(
    cancelled: bool,
    winIndex: Option<nat>,
    configs: seq<WinningConfig>,
    winningConfigItem: WinningConfigItem,
    safetyDepositBoxOrder: u8,
    editionOffset: u64,
    ticket: PrizeTrackingTicket,
    metadataAccountKey: seq<u8>,
    masterEditionSupply: u64)
    returns (r: Result<Redemption>)
    requires ticket.Valid() && |metadataAccountKey| == PUBKEY_LENGTH && |configs| <= MAX_WINNING_CONFIGS
    modifies ticket, ticket.data
    ensures ticket.Valid()
    // The ticket keeps its buffer, or holds one allocated by this redemption.
    ensures ticket.data == old(ticket.data) || fresh(ticket.data)
    // Not a winning printing prize: nothing is allocated.
    ensures !Allocates(cancelled, winIndex, configs) ==>
              r == Ok(Skipped) && ticket.data == old(ticket.data) && ticket.data[..] == old(ticket.data[..])
    // The prize is not a printing-v2 prize.
    ensures Allocates(cancelled, winIndex, configs) && winningConfigItem.winningConfigType != PrintingV2 ==>
              r == Err(WrongBidEndpointForPrize) &&
              ticket.data == old(ticket.data) && ticket.data[..] == old(ticket.data[..])
    // The offset lies outside the placement's window: rejected before the ticket is touched.
    ensures Allocates(cancelled, winIndex, configs) && winningConfigItem.winningConfigType == PrintingV2 &&
            !InWindow(configs, safetyDepositBoxOrder, winIndex.value, editionOffset) ==>
              r == Err(InvalidEditionNumber) &&
              ticket.data == old(ticket.data) && ticket.data[..] == old(ticket.data[..])
    // First redemption: the ticket is created with everything the box's placements claim.
    ensures Allocates(cancelled, winIndex, configs) && winningConfigItem.winningConfigType == PrintingV2 &&
            InWindow(configs, safetyDepositBoxOrder, winIndex.value, editionOffset) && old(ticket.DataIsEmpty()) ==>
              ticket.data[..] == CreatedTicket(metadataAccountKey, masterEditionSupply,
                                               TotalClaimed(configs, safetyDepositBoxOrder)) &&
              r == MintOrFail(ActualEdition(editionOffset, masterEditionSupply))
    // Later redemption: the counter is incremented and the stored snapshot is used.
    ensures Allocates(cancelled, winIndex, configs) && winningConfigItem.winningConfigType == PrintingV2 &&
            InWindow(configs, safetyDepositBoxOrder, winIndex.value, editionOffset) && !old(ticket.DataIsEmpty()) ==>
              ticket.data == old(ticket.data) &&
              match BumpRedemptions(old(ticket.data[..]))
              case Err(err) => r == Err(err) && ticket.data[..] == old(ticket.data[..])
              case Ok(bumped) =>
                ticket.data[..] == bumped &&
                r == MintOrFail(ActualEdition(editionOffset, StoredSnapshot(old(ticket.data[..]))))
  {
    if cancelled || winIndex.None? || winIndex.value >= |configs| {
      return Ok(Skipped);
    }
    var winningIndex := winIndex.value;
    if winningConfigItem.winningConfigType != PrintingV2 {
      return Err(WrongBidEndpointForPrize);
    }
    var editionOffsetMin, editionOffsetMax, expectedRedemptions :=
      ComputeWindow(configs, winningIndex, safetyDepositBoxOrder, ticket.DataIsEmpty());
    if CheckEditionOffset(editionOffset, editionOffsetMin, editionOffsetMax).Fail? {
      return Err(InvalidEditionNumber);
    }
    var snapshot := ticket.CreateOrUpdate(metadataAccountKey, masterEditionSupply, expectedRedemptions);
    if snapshot.Err? {
      return Err(snapshot.error);
    }
    var actualEdition := ActualEdition(editionOffset, snapshot.value);
    if actualEdition.Err? {
      return Err(actualEdition.error);
    }
    r := Ok(Minted(actualEdition.value));
  }

  /** A first redemption, inside its window, against a ticket account that
      does not exist yet: the edition is minted from the current supply, and
      the ticket created for it hands that supply to the next redemption and
      counts two once that redemption increments it. */
  method RedeemFirst(
    configs: seq<WinningConfig>,
    winningConfigItem: WinningConfigItem,
    safetyDepositBoxOrder: u8,
    i: nat, offsetI: u64,
    metadataAccountKey: seq<u8>,
    masterEditionSupply: u64)
    returns (first: Result<Redemption>, ticket: PrizeTrackingTicket)
    requires i < |configs| <= MAX_WINNING_CONFIGS
    requires winningConfigItem.winningConfigType == PrintingV2 && |metadataAccountKey| == PUBKEY_LENGTH
    requires InWindow(configs, safetyDepositBoxOrder, i, offsetI)
    requires offsetI + masterEditionSupply <= U64_MAX
    ensures fresh(ticket) && fresh(ticket.data) && ticket.Valid()
    ensures first == Ok(Minted(offsetI + masterEditionSupply))
    ensures !ticket.DataIsEmpty() && StoredSnapshot(ticket.data[..]) == masterEditionSupply
    ensures BumpRedemptions(ticket.data[..]).Ok?
    ensures DecodeTicket(BumpRedemptions(ticket.data[..]).value)
            == TicketRecord(PRIZE_TRACKING_TICKET_V1, metadataAccountKey, masterEditionSupply,
                            TotalClaimed(configs, safetyDepositBoxOrder), 2, Zeros(PADDING_LENGTH))
  {
    ticket := new PrizeTrackingTicket.Absent();
    first := ProcessRedeemPrintingV2Bid(false, Some(i), configs, winningConfigItem, safetyDepositBoxOrder, offsetI,
                                        ticket, metadataAccountKey, masterEditionSupply);
  }

  /** Two winners redeem from the same box, one after the other, with
      offsets inside their windows and different (placement, offset) pairs:
      the first redemption creates the ticket, the second updates it; both
      are minted from the supply frozen by the first, under different
      edition numbers, and the ticket counts two redemptions out of the
      total the box's placements claim. */
  method RedeemTwoWinners(
    configs: seq<WinningConfig>,
    winningConfigItem: WinningConfigItem,
    safetyDepositBoxOrder: u8,
    i: nat, offsetI: u64,
    j: nat, offsetJ: u64,
    metadataAccountKey: seq<u8>,
    masterEditionSupply: u64,
    laterSupply: u64)
    returns (first: Result<Redemption>, second: Result<Redemption>, record: TicketRecord)
    requires i < |configs| && j < |configs| && |configs| <= MAX_WINNING_CONFIGS
    requires winningConfigItem.winningConfigType == PrintingV2 && |metadataAccountKey| == PUBKEY_LENGTH
    requires InWindow(configs, safetyDepositBoxOrder, i, offsetI)
    requires InWindow(configs, safetyDepositBoxOrder, j, offsetJ)
    requires (i, offsetI) != (j, offsetJ)
    requires offsetI + masterEditionSupply <= U64_MAX && offsetJ + masterEditionSupply <= U64_MAX
    ensures first == Ok(Minted(offsetI + masterEditionSupply))
    ensures second == Ok(Minted(offsetJ + masterEditionSupply))
    ensures first.value.actualEdition != second.value.actualEdition
    ensures record.supplySnapshot == masterEditionSupply && record.redemptions == 2
    ensures record.expectedRedemptions == TotalClaimed(configs, safetyDepositBoxOrder)
  {
    var ticket;
    first, ticket := RedeemFirst(configs, winningConfigItem, safetyDepositBoxOrder, i, offsetI,
                                 metadataAccountKey, masterEditionSupply);
    second := ProcessRedeemPrintingV2Bid(false, Some(j), configs, winningConfigItem, safetyDepositBoxOrder, offsetJ,
                                         ticket, metadataAccountKey, laterSupply);
    ActualEditionsDistinct(configs, safetyDepositBoxOrder, i, j, offsetI, offsetJ, masterEditionSupply);
    record := DecodeTicket(ticket.data[..]);
  }

  /** A worked example: placements claiming 3 and 2 editions from box A and 1
      from box B. */
  lemma ThreePlacementExample()
    ensures var a := WinningConfigItem(0, 3, PrintingV2);
            var a' := WinningConfigItem(0, 2, PrintingV2);
            var b := WinningConfigItem(1, 1, PrintingV2);
            var configs := [WinningConfig([a]), WinningConfig([a']), WinningConfig([b])];
            WindowMin(configs, 0, 0) == 1 && WindowMax(configs, 0, 0) == 4 &&
            WindowMin(configs, 0, 1) == 4 && WindowMax(configs, 0, 1) == 6 &&
            TotalClaimed(configs, 0) == 5 &&
            ActualEdition(4, 10) == Ok(14)
  {
  }
}
