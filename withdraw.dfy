/**
 * The withdraw card: like the deposit card, without quick amounts, and with
 * every control disabled while the deposited balance is zero.
 */
module Withdraw {
  import opened Wrappers
  import opened Amount

  /** The card's props; the vault page passes no `isWalletConnected`, which reads as false. */
  datatype Props = Props(isWalletConnected: bool, userBalance: real)

  /** The guards of `handleWithdraw`: the amount it goes on with, or `None`. */
  function Accepted(amount: AmountField, props: Props): (r: Option<real>)
    ensures r.Some? <==> && amount.Entered? && props.isWalletConnected
                         && 0.0 < amount.value <= props.userBalance
    ensures r.Some? ==> r.value == amount.value
  {
    if amount.Blank? || !props.isWalletConnected then None
    else if amount.value <= 0.0 || amount.value > props.userBalance then None
    else Some(amount.value)
  }

  /** The `disabled` expression of the input and of the Max button. */
  function ControlsDisabled(props: Props): bool {
    !props.isWalletConnected || props.userBalance == 0.0
  }

  /** The submit button's `disabled` expression. */
  function SubmitDisabled(props: Props, amount: AmountField, isLoading: bool): (r: bool)
    ensures !r <==> && props.isWalletConnected && amount.Entered? && amount.value > 0.0
                    && props.userBalance != 0.0 && !isLoading
  {
    !props.isWalletConnected || NothingToSubmit(amount) || props.userBalance == 0.0 || isLoading
  }

  /** With nothing deposited every control is disabled and the handler accepts nothing. */
  lemma ZeroBalanceLocksCard(props: Props, amount: AmountField, isLoading: bool)
    requires props.userBalance == 0.0
    ensures ControlsDisabled(props) && SubmitDisabled(props, amount, isLoading)
    ensures Accepted(amount, props) == None
  {
  }

  /**
   * The button and the handler agree except on the upper bound: an enabled
   * button submits exactly the amounts within the balance, and an accepted
   * amount leaves the button enabled once loading is over.
   */
  lemma SubmitAgreesWithGuard(props: Props, amount: AmountField, isLoading: bool)
    ensures !SubmitDisabled(props, amount, isLoading) ==>
              (Accepted(amount, props).Some? <==> amount.value <= props.userBalance)
    ensures Accepted(amount, props).Some? ==> !SubmitDisabled(props, amount, false)
  {
  }

  class WithdrawCard {
    var amount: AmountField
    var isLoading: bool

    constructor()
      ensures amount == Blank && !isLoading
    {
      amount, isLoading := Blank, false;
    }

    /** The field's `onChange`. */
    method SetAmount(value: AmountField)
      modifies this
      ensures amount == value && isLoading == old(isLoading)
    {
      amount := value;
    }

    /** The Max button: the deposited balance written into the field. */
    method Max(props: Props)
      modifies this
      ensures amount == Entered(props.userBalance) && isLoading == old(isLoading)
    {
      amount := Entered(props.userBalance);
    }

    /** `handleWithdraw` up to the timer. */
    method HandleWithdraw(props: Props) returns (scheduled: Option<real>)
      modifies this
      ensures scheduled == Accepted(old(amount), props)
      ensures scheduled.None? ==> unchanged(this)
      ensures scheduled.Some? ==> isLoading && amount == old(amount)
    {
      scheduled := Accepted(amount, props);
      if scheduled.Some? {
        isLoading := true;
      }
    }

    /** The timer fires: `onWithdraw` receives the amount, the field is cleared and loading ends. */
    method CompleteWithdraw(withdrawAmount: real) returns (onWithdraw: real)
      modifies this
      ensures onWithdraw == withdrawAmount
      ensures amount == Blank && !isLoading
    {
      onWithdraw := withdrawAmount;
      amount, isLoading := Blank, false;
    }
  }
}
