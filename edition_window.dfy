/** The numbering windows of printed editions: every winning placement owns a
    contiguous, half-open range of edition offsets for one safety deposit box,
    and the ranges of consecutive placements follow each other from 1 upwards. */
module EditionWindow {
  import opened MetaplexTypes

  /** The largest number of winning configurations for which 1 + 255 * count,
      the largest value the unchecked sums of the window loop can reach, still
      fits in a u64. */
  const MAX_WINNING_CONFIGS: nat := 0x0101_0101_0101_0100

  /** `count_item_amount_by_safety_deposit_order`: the amount of the first item
      drawn from the box with order `order`, or 0 when no item is. */
  function CountItemAmount(items: seq<WinningConfigItem>, order: u8): (r: u64)
    ensures r <= 255
  {
    if |items| == 0 then 0
    else if items[0].safetyDepositBoxIndex == order then items[0].amount
    else CountItemAmount(items[1..], order)
  }

  /** Index of the first item drawn from the box with order `order`. */
  predicate IsFirstMatch(items: seq<WinningConfigItem>, order: u8, k: nat)
  {
    k < |items| && items[k].safetyDepositBoxIndex == order &&
    forall j :: 0 <= j < k ==> items[j].safetyDepositBoxIndex != order
  }

  predicate HasMatch(items: seq<WinningConfigItem>, order: u8)
  {
    exists k :: 0 <= k < |items| && items[k].safetyDepositBoxIndex == order
  }

  /** The amount found is that of the first matching item. */
  lemma {:induction false} CountIsFirstMatch(items: seq<WinningConfigItem>, order: u8, k: nat)
    requires IsFirstMatch(items, order, k)
    ensures CountItemAmount(items, order) == items[k].amount
  {
    if k > 0 {
      assert items[0].safetyDepositBoxIndex != order;
      assert IsFirstMatch(items[1..], order, k - 1) by {
        forall j | 0 <= j < k - 1
          ensures items[1..][j].safetyDepositBoxIndex != order
        {
          assert items[1..][j] == items[j + 1];
        }
      }
      CountIsFirstMatch(items[1..], order, k - 1);
    }
  }

  /** Without a matching item the amount is 0. */
  lemma {:induction false} CountWithoutMatch(items: seq<WinningConfigItem>, order: u8)
    requires !HasMatch(items, order)
    ensures CountItemAmount(items, order) == 0
  {
    if |items| > 0 {
      assert items[0].safetyDepositBoxIndex != order;
      assert !HasMatch(items[1..], order) by {
        forall k | 0 <= k < |items| - 1
          ensures items[1..][k].safetyDepositBoxIndex != order
        {
          assert items[1..][k] == items[k + 1];
        }
      }
      CountWithoutMatch(items[1..], order);
    }
  }

  /** Items after a match, duplicates included, do not change the amount. */
  lemma {:induction false} CountIgnoresLaterItems(items: seq<WinningConfigItem>, later: seq<WinningConfigItem>, order: u8)
    requires HasMatch(items, order)
    ensures CountItemAmount(items + later, order) == CountItemAmount(items, order)
  {
    if items[0].safetyDepositBoxIndex != order {
      assert (items + later)[1..] == items[1..] + later;
      var k :| 0 <= k < |items| && items[k].safetyDepositBoxIndex == order;
      assert items[1..][k - 1] == items[k];
      CountIgnoresLaterItems(items[1..], later, order);
    }
  }

  /** Sum of the amounts claimed from the box by the placements before `k`. */
  function Prefix(configs: seq<WinningConfig>, order: u8, k: nat): (r: nat)
    requires k <= |configs|
  {
    if k == 0 then 0
    else Prefix(configs, order, k - 1) + CountItemAmount(configs[k - 1].items, order)
  }

  /** Sum of the amounts claimed from the box by all placements. */
  function TotalClaimed(configs: seq<WinningConfig>, order: u8): (r: nat)
    ensures r <= 255 * |configs|
  {
    PrefixBound(configs, order, |configs|);
    Prefix(configs, order, |configs|)
  }

  /** First edition offset owned by placement `i`. */
  function WindowMin(configs: seq<WinningConfig>, order: u8, i: nat): nat
    requires i < |configs|
  {
    1 + Prefix(configs, order, i)
  }

  /** One past the last edition offset owned by placement `i`. */
  function WindowMax(configs: seq<WinningConfig>, order: u8, i: nat): nat
    requires i < |configs|
  {
    WindowMin(configs, order, i) + CountItemAmount(configs[i].items, order)
  }

  predicate InWindow(configs: seq<WinningConfig>, order: u8, i: nat, offset: int)
    requires i < |configs|
  {
    WindowMin(configs, order, i) <= offset < WindowMax(configs, order, i)
  }

  /** Each placement adds at most 255, so k placements add at most 255 * k. */
  lemma {:induction false} PrefixBound(configs: seq<WinningConfig>, order: u8, k: nat)
    requires k <= |configs|
    ensures Prefix(configs, order, k) <= 255 * k
  {
    if k > 0 {
      PrefixBound(configs, order, k - 1);
    }
  }

  /** The unchecked sums of the window loop stay within u64. */
  lemma TotalClaimedFits(configs: seq<WinningConfig>, order: u8)
    requires |configs| <= MAX_WINNING_CONFIGS
    ensures 1 + TotalClaimed(configs, order) <= U64_MAX
  {
  }

  lemma {:induction false} PrefixMonotone(configs: seq<WinningConfig>, order: u8, a: nat, b: nat)
    requires a <= b <= |configs|
    ensures Prefix(configs, order, a) <= Prefix(configs, order, b)
  {
    if a < b {
      PrefixMonotone(configs, order, a, b - 1);
    }
  }

  /** The first window starts at 1: offset 0 is the master edition itself. */
  lemma FirstWindowStartsAtOne(configs: seq<WinningConfig>, order: u8)
    requires |configs| > 0
    ensures WindowMin(configs, order, 0) == 1
  {
  }

  /** Each window ends where the next one starts. */
  lemma WindowsContiguous(configs: seq<WinningConfig>, order: u8, i: nat)
    requires i + 1 < |configs|
    ensures WindowMax(configs, order, i) == WindowMin(configs, order, i + 1)
  {
  }

  /** The last window ends at 1 + the total claimed. */
  lemma LastWindowEndsAtTotal(configs: seq<WinningConfig>, order: u8)
    requires |configs| > 0
    ensures WindowMax(configs, order, |configs| - 1) == 1 + TotalClaimed(configs, order)
  {
  }

  /** Windows of earlier placements lie entirely below those of later ones. */
  lemma WindowsOrdered(configs: seq<WinningConfig>, order: u8, i: nat, j: nat)
    requires i < j < |configs|
    ensures WindowMax(configs, order, i) <= WindowMin(configs, order, j)
  {
    PrefixMonotone(configs, order, i + 1, j);
  }

  /** No offset belongs to two placements. */
  lemma WindowsDisjoint(configs: seq<WinningConfig>, order: u8, i: nat, j: nat, offset: int)
    requires i < |configs| && j < |configs|
    requires InWindow(configs, order, i, offset) && InWindow(configs, order, j, offset)
    ensures i == j
  {
    if i < j {
      WindowsOrdered(configs, order, i, j);
    } else if j < i {
      WindowsOrdered(configs, order, j, i);
    }
  }

  /** Every window lies within [1, 1 + total). */
  lemma WindowWithinTotal(configs: seq<WinningConfig>, order: u8, i: nat, offset: int)
    requires i < |configs| && InWindow(configs, order, i, offset)
    ensures 1 <= offset < 1 + TotalClaimed(configs, order)
  {
    PrefixMonotone(configs, order, i + 1, |configs|);
  }

  lemma {:induction false} CoveredBelow(configs: seq<WinningConfig>, order: u8, k: nat, offset: int)
    requires k <= |configs|
    requires 1 <= offset < 1 + Prefix(configs, order, k)
    ensures exists i :: 0 <= i < k && InWindow(configs, order, i, offset)
  {
    if offset < 1 + Prefix(configs, order, k - 1) {
      CoveredBelow(configs, order, k - 1, offset);
    } else {
      assert InWindow(configs, order, k - 1, offset);
    }
  }

  /** Every offset in [1, 1 + total) belongs to some placement's window. */
  lemma WindowsCoverTotal(configs: seq<WinningConfig>, order: u8, offset: int)
    requires 1 <= offset < 1 + TotalClaimed(configs, order)
    ensures exists i :: 0 <= i < |configs| && InWindow(configs, order, i, offset)
  {
    CoveredBelow(configs, order, |configs|, offset);
  }

  /** The window loop of `process_redeem_printing_v2_bid`: the bounds of the
      window of placement `winningIndex` and, when the prize tracking ticket
      is still empty, the number of editions all placements claim from the box.
      With an existing ticket the loop stops at `winningIndex`. */
  method ComputeWindow(configs: seq<WinningConfig>, winningIndex: nat, order: u8, ticketIsEmpty: bool)
    returns (editionOffsetMin: u64, editionOffsetMax: u64, expectedRedemptions: u64)
    requires winningIndex < |configs| <= MAX_WINNING_CONFIGS
    ensures editionOffsetMin == WindowMin(configs, order, winningIndex)
    ensures editionOffsetMax == WindowMax(configs, order, winningIndex)
    ensures expectedRedemptions == if ticketIsEmpty then TotalClaimed(configs, order) else 0
  {
    TotalClaimedFits(configs, order);
    editionOffsetMin := 1;
    expectedRedemptions := 0;
    var n := 0;
    while n < |configs|
      invariant n <= |configs|
      invariant !ticketIsEmpty ==> n <= winningIndex
      invariant editionOffsetMin == 1 + Prefix(configs, order, if n < winningIndex then n else winningIndex)
      invariant expectedRedemptions == if ticketIsEmpty then Prefix(configs, order, n) else 0
    {
      var matching := CountItemAmount(configs[n].items, order);
      PrefixMonotone(configs, order, n + 1, |configs|);
      if n < winningIndex {
        editionOffsetMin := editionOffsetMin + matching;
      }
      if ticketIsEmpty {
        expectedRedemptions := expectedRedemptions + matching;
      } else if n >= winningIndex {
        break;
      }
      n := n + 1;
    }
    PrefixMonotone(configs, order, winningIndex + 1, |configs|);
    editionOffsetMax := editionOffsetMin + CountItemAmount(configs[winningIndex].items, order);
  }

  /** The range check on the caller's edition offset. */
  function CheckEditionOffset(editionOffset: u64, editionOffsetMin: u64, editionOffsetMax: u64): (r: Outcome)
    ensures r == Pass <==> editionOffsetMin <= editionOffset < editionOffsetMax
    ensures r.Fail? ==> r.error == InvalidEditionNumber
  {
    if editionOffset < editionOffsetMin || editionOffset >= editionOffsetMax then Fail(InvalidEditionNumber)
    else Pass
  }

  /** The offsets that pass the check for placement i are exactly its window;
      the offset just below it and its end are rejected. */
  lemma CheckAcceptsExactlyTheWindow(configs: seq<WinningConfig>, order: u8, i: nat, editionOffset: u64)
    requires i < |configs| <= MAX_WINNING_CONFIGS
    ensures WindowMax(configs, order, i) <= U64_MAX
    ensures CheckEditionOffset(editionOffset, WindowMin(configs, order, i), WindowMax(configs, order, i)) == Pass
            <==> InWindow(configs, order, i, editionOffset)
    ensures CheckEditionOffset(WindowMin(configs, order, i) - 1, WindowMin(configs, order, i), WindowMax(configs, order, i))
            == Fail(InvalidEditionNumber)
    ensures CheckEditionOffset(WindowMax(configs, order, i), WindowMin(configs, order, i), WindowMax(configs, order, i))
            == Fail(InvalidEditionNumber)
  {
    TotalClaimedFits(configs, order);
    PrefixMonotone(configs, order, i + 1, |configs|);
  }
}
