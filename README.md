# Printing-v2 edition allocation of the Metaplex auction program

This project models, in Dafny, how the Metaplex auction program hands out numbered
prints of a master edition to auction winners (`process_redeem_printing_v2_bid`).

- A winning configuration can hold items from several safety deposit boxes.
  For a given box, a placement claims the amount of the first item of its
  configuration that is drawn from that box, or none when no item is.
- The claims, taken in placement order, give every placement a half-open **window**
  of edition offsets `[min, max)`, numbered from 1.
- A winner picks an offset inside its own window.
- The **prize tracking ticket** is a 107-byte account. On the first redemption it
  freezes the master edition's supply. It also counts redemptions.
- The edition that is minted is the offset plus the frozen supply, with a checked addition.

Modules:

- `MetaplexTypes` (`types.dfy`): `u8`/`u64` as integer subset types, the error codes,
  `WinningConfigItem`/`WinningConfig`, and `CheckedAdd` (`u64::checked_add` mapped to
  `NumericalOverflowError`).
- `LittleEndian` (`little_endian.dfy`): `to_le_bytes`/`from_le_bytes` and their round trips.
- `EditionWindow` (`edition_window.dfy`):
  - `count_item_amount_by_safety_deposit_order`;
  - the windows, as functions of the configurations;
  - the properties of the windows;
  - the window loop as a method proved against those functions;
  - the range check.
- `PrizeTracking` (`prize_tracking.dfy`):
  - the ticket layout, with encode and decode;
  - the byte strings a creation and an update produce;
  - the ledger's lifecycle lemmas;
  - the ticket account as a class whose `array<u8>` is allocated on first use and then updated in place.
- `RedeemPrintingV2Bid` (`redeem_printing_v2_bid.dfy`): the allocation section of
  `process_redeem_printing_v2_bid`, the final edition number, and the uniqueness of
  edition numbers.

Inputs and trust boundaries:

- The auction's cancellation flag, the bid's `win_index`, the winning configuration
  item, the safety deposit box order and the metadata account key are inputs. Upstream
  checks that are not modelled here produce them.
- The master edition's supply (`get_supply_off_master_edition`) is a parameter.

Two details of the code that the model keeps as they are:

- The ticket's 32-byte key field holds the metadata **account** key (line 165). It does
  not hold the mint that the address derivation uses (line 128).
- With an existing ticket, `expected_redemptions` stays 0 and is passed on, but it is
  never written.

Constants:

- `Key::PrizeTrackingTicketV1 as u8` is taken as 8. That is its position in the `Key`
  enum of `state.rs`, and `state.rs` is not part of this model.
- `MAX_PRIZE_TRACKING_TICKET_SIZE` is 107 (1 + 32 + 8 + 8 + 8 + 50).

## Model

| member | source | states |
|---|---|---|
| `EditionWindow.CountItemAmount` | rust/metaplex/program/src/processor/redeem_printing_v2_bid.rs:29-45 | the amount found is a widened `u8`, so at most 255 |
| `EditionWindow.CountIsFirstMatch` | rust/metaplex/program/src/processor/redeem_printing_v2_bid.rs:29-45 | the result is the amount of the first item whose box index equals the query |
| `EditionWindow.CountWithoutMatch` | rust/metaplex/program/src/processor/redeem_printing_v2_bid.rs:41-44 | with no matching item the result is 0 |
| `EditionWindow.CountIgnoresLaterItems` | rust/metaplex/program/src/processor/redeem_printing_v2_bid.rs:33-39 | once a match exists, later items (duplicates included) do not change the result |
| `EditionWindow.TotalClaimed` | rust/metaplex/program/src/processor/redeem_printing_v2_bid.rs:296-308 | the amount all placements claim from a box is at most 255 per placement |
| `EditionWindow.PrefixBound` | rust/metaplex/program/src/processor/redeem_printing_v2_bid.rs:296-297 | the first k placements claim at most 255 * k in all, which is why the sums may go unchecked |
| `EditionWindow.TotalClaimedFits` | rust/metaplex/program/src/processor/redeem_printing_v2_bid.rs:296-297 | below the configuration bound, 1 + the total claimed fits in a u64 |
| `EditionWindow.PrefixMonotone` | rust/metaplex/program/src/processor/redeem_printing_v2_bid.rs:304-306 | the sum over earlier placements never decreases with the placement index |
| `EditionWindow.ComputeWindow` | rust/metaplex/program/src/processor/redeem_printing_v2_bid.rs:293-320 | min is 1 + the amounts of all earlier placements and max is min + the placement's own amount, whether or not the loop breaks early; expected redemptions is the sum over all placements when the ticket is empty and 0 otherwise |
| `EditionWindow.FirstWindowStartsAtOne` | rust/metaplex/program/src/processor/redeem_printing_v2_bid.rs:293 | the window of placement 0 starts at offset 1 |
| `EditionWindow.WindowsContiguous` | rust/metaplex/program/src/processor/redeem_printing_v2_bid.rs:304-320 | the window of placement i ends where that of placement i + 1 starts |
| `EditionWindow.LastWindowEndsAtTotal` | rust/metaplex/program/src/processor/redeem_printing_v2_bid.rs:298-320 | the last window ends at 1 + the total claimed from the box |
| `EditionWindow.WindowsOrdered` | rust/metaplex/program/src/processor/redeem_printing_v2_bid.rs:298-320 | the window of an earlier placement lies wholly below that of a later one |
| `EditionWindow.WindowsDisjoint` | rust/metaplex/program/src/processor/redeem_printing_v2_bid.rs:298-320 | an offset lies in at most one placement's window |
| `EditionWindow.WindowWithinTotal` | rust/metaplex/program/src/processor/redeem_printing_v2_bid.rs:298-320 | every offset in any window lies in [1, 1 + total) |
| `EditionWindow.CoveredBelow` | rust/metaplex/program/src/processor/redeem_printing_v2_bid.rs:304-306 | every offset in [1, 1 + sum over the first k placements) lies in the window of one of them |
| `EditionWindow.WindowsCoverTotal` | rust/metaplex/program/src/processor/redeem_printing_v2_bid.rs:298-320 | every offset in [1, 1 + total) lies in some placement's window |
| `EditionWindow.CheckEditionOffset` | rust/metaplex/program/src/processor/redeem_printing_v2_bid.rs:322-324 | the check passes exactly when min <= offset < max and otherwise fails with InvalidEditionNumber |
| `EditionWindow.CheckAcceptsExactlyTheWindow` | rust/metaplex/program/src/processor/redeem_printing_v2_bid.rs:316-324 | for a placement, the offsets accepted are exactly its window; min - 1 and max are both rejected; max fits in a u64 |
| `LittleEndian.U64ToLe` | rust/metaplex/program/src/processor/redeem_printing_v2_bid.rs:167-169 | `to_le_bytes` gives 8 bytes that decode back to the value |
| `LittleEndian.U64FromLe` | rust/metaplex/program/src/processor/redeem_printing_v2_bid.rs:177-178 | `from_le_bytes` gives the value whose encoding is the bytes read |
| `LittleEndian.LeBytesRoundTrip` | rust/metaplex/program/src/processor/redeem_printing_v2_bid.rs:167-177 | decoding the n-byte little-endian encoding of a value below 256^n gives the value |
| `LittleEndian.FromLeRoundTrip` | rust/metaplex/program/src/processor/redeem_printing_v2_bid.rs:175-181 | re-encoding a decoded byte string gives the byte string |
| `LittleEndian.EightBytesHoldU64` | rust/metaplex/program/src/processor/redeem_printing_v2_bid.rs:161-162 | an 8-byte field holds exactly the u64 range |
| `PrizeTracking.DecodeEncode` | rust/metaplex/program/src/processor/redeem_printing_v2_bid.rs:161-169 | reading the fields of an encoded ticket (layout 1, 32, 8, 8, 8, 50) gives the fields written |
| `PrizeTracking.EncodeDecode` | rust/metaplex/program/src/processor/redeem_printing_v2_bid.rs:173-177 | any 107 bytes are the encoding of the fields read from them |
| `PrizeTracking.SnapshotFrozen` | rust/metaplex/program/src/processor/redeem_printing_v2_bid.rs:166-177 | after creation and any k later redemptions, the snapshot read back is the one written at creation |
| `PrizeTracking.CreatedTicket` | rust/metaplex/program/src/processor/redeem_printing_v2_bid.rs:158-169 | a created ticket decodes to key PrizeTrackingTicketV1, the metadata account key, the snapshot, the expected redemptions, redemptions 1 and zero padding |
| `PrizeTracking.BumpRedemptions` | rust/metaplex/program/src/processor/redeem_printing_v2_bid.rs:170-181 | an update fails with NumericalOverflowError exactly when the counter is u64::MAX; otherwise the counter is old + 1, every other field decodes as before, and every byte outside the counter is unchanged |
| `PrizeTracking.BumpTimesKeepsRecord` | rust/metaplex/program/src/processor/redeem_printing_v2_bid.rs:170-184 | k updates that do not overflow add k to the counter and keep snapshot, key, metadata, expected redemptions and padding |
| `PrizeTracking.BumpTimesOverflows` | rust/metaplex/program/src/processor/redeem_printing_v2_bid.rs:178-180 | k updates that would take the counter past u64::MAX fail with NumericalOverflowError, with no wrap-around |
| `PrizeTracking.Lifecycle` | rust/metaplex/program/src/processor/redeem_printing_v2_bid.rs:141-184 | after creation and k updates, the ticket holds the creation's snapshot and expected redemptions and counts 1 + k |
| `PrizeTracking.CopyInto` | rust/metaplex/program/src/processor/redeem_printing_v2_bid.rs:165-169 | writing a field changes exactly its bytes to the source bytes |
| `PrizeTracking.WriteCreatedTicket` | rust/metaplex/program/src/processor/redeem_printing_v2_bid.rs:158-169 | the field writes, in the code's order, turn a zero-filled ticket into the created ticket |
| `PrizeTracking.PrizeTrackingTicket.CreateOrUpdate` | rust/metaplex/program/src/processor/redeem_printing_v2_bid.rs:116-185 | on an empty account, allocates a fresh buffer holding the created ticket and returns the supply; otherwise it updates the same buffer in place, returns the stored snapshot, and ignores the caller's expected redemptions; on counter overflow it fails and the bytes stay unchanged |
| `PrizeTracking.RedeemTwice` | rust/metaplex/program/src/processor/redeem_printing_v2_bid.rs:141-184 | two redemptions, the first creating the ticket, both return the creation's supply even when the supply passed to the second differs; they leave the counter at 2 and the creation's expected redemptions |
| `RedeemPrintingV2Bid.ActualEdition` | rust/metaplex/program/src/processor/redeem_printing_v2_bid.rs:338-340 | the edition is offset + snapshot when that fits in a u64, and NumericalOverflowError otherwise |
| `RedeemPrintingV2Bid.ActualEditionsDistinct` | rust/metaplex/program/src/processor/redeem_printing_v2_bid.rs:293-340 | against one snapshot, editions lie in (snapshot, snapshot + 1 + total), and distinct (placement, offset) pairs get distinct edition numbers |
| `RedeemPrintingV2Bid.ProcessRedeemPrintingV2Bid` | rust/metaplex/program/src/processor/redeem_printing_v2_bid.rs:267-340 | several outcomes, listed after this table |
| `RedeemPrintingV2Bid.RedeemFirst` | rust/metaplex/program/src/processor/redeem_printing_v2_bid.rs:267-340 | a first redemption inside its window, on a ticket account that does not exist yet, mints offset + current supply; the new ticket stores that supply, and the next redemption can increment it to a record that counts 2 and holds the total claimed |
| `RedeemPrintingV2Bid.RedeemTwoWinners` | rust/metaplex/program/src/processor/redeem_printing_v2_bid.rs:267-340 | two winners redeem in turn through the allocation, with offsets in their windows and different (placement, offset) pairs: both are minted from the first redemption's supply, under different edition numbers; the ticket then counts 2 and expects the total claimed from the box |
| `RedeemPrintingV2Bid.ThreePlacementExample` | rust/metaplex/program/src/processor/redeem_printing_v2_bid.rs:293-340 | for claims of 3 and 2 on box A and 1 on box B, the windows on A are [1,4) and [4,6), the total on A is 5, and offset 4 with snapshot 10 gives edition 14 |

The outcomes of `RedeemPrintingV2Bid.ProcessRedeemPrintingV2Bid`:

- If the auction is cancelled or there is no valid win index, the result is Skipped and
  the ticket is untouched.
- If the prize is not printing-v2, it fails with WrongBidEndpointForPrize and the ticket
  is untouched.
- If the offset is outside the window, it fails with InvalidEditionNumber and the ticket
  is untouched.
- Otherwise it creates the ticket with the total claimed, or updates the existing one.
  The result is the checked offset plus the snapshot.
- In every case the ticket keeps its buffer or holds one newly allocated by this
  redemption, so the same ticket can be redeemed against again.

## Left out

- `mint_edition`: a cross-program call with no logic of its own. The model stops at the
  edition number it would receive (`Minted(actualEdition)`). A failure of that call is
  not modelled.
- Account iteration, the token-amount and associated-token-account checks, and the
  "exactly one token" check (lines 193-233): account plumbing.
- `common_redeem_checks`, `common_winning_config_checks`, `common_redeem_finish` and
  `assert_owned_by`: they are in files that are not part of this model. Their outputs
  are inputs, and the final bookkeeping after allocation is not modelled.
- `assert_derivation`, the address seeds and `create_or_allocate_account_raw`: address
  derivation and rent allocation. Allocation is modelled as a fresh zero-filled
  107-byte buffer. The ticket account is assumed valid, and either empty or 107 bytes long.
- `get_supply_off_master_edition`: a foreign read. The supply is a parameter, and a
  failure of that read is not modelled.
- Transaction atomicity: the runtime discards every write of a failed instruction. The
  model does not. If the final checked addition overflows after the ticket was written,
  the model's ticket keeps that write and the result is NumericalOverflowError.
- `RefCell` borrowing of account data: a language mechanism with no effect on these values.
- EditionWindow.ComputeWindow: requires at most `MAX_WINNING_CONFIGS`
  (0x0101_0101_0101_0100) winning configurations. Below that bound its unchecked `u64`
  additions cannot overflow, so the model does not choose between wrap-around and a
  panic. The code relies on this without checking it (lines 296-297), and an account
  cannot hold that many configurations.
- The check that redemptions stay within expected redemptions: the code does not make
  it, and neither does the model.
