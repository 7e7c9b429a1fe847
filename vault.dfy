/**
 * The vault page: the user's deposited balance and tickets (one ticket per
 * unit deposited), the mock pool statistics, and how the page wires its cards.
 */
module Vault {
  import opened Wrappers
  import opened Amount
  import Deposit
  import Withdraw
  import Odds
  import Stats

  // The page's mock statistics.
  const Tvl: real := 125000.0
  const Participants: int := 342
  const PrizePool: real := 2500.0
  /** "2024-01-15T20:00:00Z" in epoch milliseconds. */
  const NextDrawTime: int := 1705348800000

  /** `totalTickets` handed to the odds meter: fifteen tickets per participant. */
  function TotalTickets(): (t: int)
    ensures t == 5130
  {
    Participants * 15
  }

  class VaultPage {
    var userBalance: real
    var userTickets: real

    /** Tickets track the balance one for one, and the balance is never negative. */
    ghost predicate Valid()
      reads this
    {
      userTickets == userBalance && userBalance >= 0.0
    }

    constructor()
      ensures userBalance == 0.0 && userTickets == 0.0
      ensures Valid()
    {
      userBalance, userTickets := 0.0, 0.0;
    }

    /** `handleDeposit`: the amount is added to the balance and to the tickets. */
    method HandleDeposit(amount: real)
      modifies this
      ensures userBalance == old(userBalance) + amount
      ensures userTickets == old(userTickets) + amount
      ensures old(Valid()) && amount >= 0.0 ==> Valid()
    {
      userBalance := userBalance + amount;
      userTickets := userTickets + amount;
    }

    /**
     * `handleWithdraw`: an amount above the balance is ignored; otherwise it is
     * taken from the balance, and from the tickets with a floor of zero.
     */
    method HandleWithdraw(amount: real)
      modifies this
      ensures amount > old(userBalance) ==> unchanged(this)
      ensures amount <= old(userBalance) ==>
                && userBalance == old(userBalance) - amount
                && userTickets == Odds.MaxReal(0.0, old(userTickets) - amount)
      ensures old(Valid()) ==> Valid()
    {
      if amount <= userBalance {
        userBalance := userBalance - amount;
        userTickets := Odds.MaxReal(0.0, userTickets - amount);
      }
    }

    /** The odds meter's inputs. */
    function OddsInputs(): (r: (real, real))
      reads this
      ensures r.0 == userTickets && r.1 == TotalTickets() as real
    {
      (userTickets, TotalTickets() as real)
    }
  }

  /** A deposit followed by the withdrawal of the same amount restores the page. */
  method DepositThenWithdraw(page: VaultPage, amount: real)
    requires page.Valid() && amount >= 0.0
    modifies page
    ensures page.userBalance == old(page.userBalance) && page.userTickets == old(page.userTickets)
    ensures page.Valid()
  {
    page.HandleDeposit(amount);
    page.HandleWithdraw(amount);
  }

  /** The deposit card's props on this page: neither a connection flag nor a balance is passed. */
  const DepositProps: Deposit.Props := Deposit.Props(false, None)

  /** The withdraw card's props on this page: the balance, but no connection flag. */
  function WithdrawProps(userBalance: real): Withdraw.Props {
    Withdraw.Props(false, userBalance)
  }

  /**
   * As wired on this page both cards stop at their first guard: no deposit or
   * withdrawal ever reaches the page, and both submit buttons stay disabled.
   */
  lemma CardsAreInertOnPage(amount: AmountField, isLoading: bool, userBalance: real)
    ensures Deposit.Accepted(amount, DepositProps) == None
    ensures Withdraw.Accepted(amount, WithdrawProps(userBalance)) == None
    ensures Deposit.SubmitDisabled(DepositProps, amount, isLoading)
    ensures Withdraw.SubmitDisabled(WithdrawProps(userBalance), amount, isLoading)
  {
  }

  /** Under `Valid` the ticket clamp never engages: withdrawing keeps tickets equal to the balance. */
  lemma ClampInactive(balance: real, tickets: real, amount: real)
    requires tickets == balance && amount <= balance
    ensures Odds.MaxReal(0.0, tickets - amount) == balance - amount
  {
  }

  /** The stats bar shows the mock figures as 125.0K MAS, 342 and 2.5K MAS. */
  lemma StatsDisplay()
    ensures Stats.FormatNumber(Tvl) == Stats.Thousands(125.0)
    ensures Stats.FormatNumber(Participants as real) == Stats.Plain(342.0)
    ensures Stats.FormatNumber(PrizePool) == Stats.Thousands(2.5)
  {
  }

  /** The mock draw time has passed for any later clock: the countdown reads "Drawing now...". */
  lemma MockDrawIsDue(now: int)
    requires now >= NextDrawTime
    ensures Stats.TimeLeftText(Stats.TimeLeftOf(NextDrawTime - now)) == "Drawing now..."
  {
    Stats.DrawingNowIffDue(NextDrawTime - now);
  }

  /** With no tickets the page shows the placeholder; the odds it would compute are 1 in 5130. */
  lemma EmptyPageOdds()
    ensures Odds.ShowsPlaceholder(0.0)
    ensures Odds.OddsOf(0.0, TotalTickets() as real) == 5130
  {
  }
}
