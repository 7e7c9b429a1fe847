/**
 * The deposit card: an amount field, a loading flag, quick-amount and Max
 * buttons, and a submit handler that, after a simulated two-second delay,
 * hands the amount to the page's `onDeposit` callback.
 */
module Deposit {
  import opened Wrappers
  import opened Amount

  /**
   * The card's props. The vault page passes neither `isWalletConnected` nor
   * `userBalance`; an absent flag is falsy and an absent balance is `None`,
   * against which every comparison is false.
   */
  datatype Props = Props(isWalletConnected: bool, userBalance: Option<real>)

  /** The amounts offered as one-click buttons, in MAS. */
  const QuickAmounts: seq<real> := [1.0, 5.0, 10.0]

  /** Every quick amount is a positive amount, so it enables the submit button of a connected, idle card. */
  lemma QuickAmountsSubmittable(props: Props)
    requires props.isWalletConnected
    ensures forall i :: 0 <= i < |QuickAmounts| ==> !SubmitDisabled(props, Entered(QuickAmounts[i]), false)
  {
  }

  /**
   * The guards of `handleDeposit`: the amount it goes on with, or `None` when it
   * returns early. An absent balance never rejects.
   */
  function Accepted(amount: AmountField, props: Props): (r: Option<real>)
    ensures r.Some? <==> && amount.Entered? && props.isWalletConnected && amount.value > 0.0
                         && (props.userBalance.Some? ==> amount.value <= props.userBalance.value)
    ensures r.Some? ==> r.value == amount.value
  {
    if amount.Blank? || !props.isWalletConnected then None
    else if amount.value <= 0.0 || (props.userBalance.Some? && amount.value > props.userBalance.value) then None
    else Some(amount.value)
  }

  /** The submit button's `disabled` expression. */
  function SubmitDisabled(props: Props, amount: AmountField, isLoading: bool): (r: bool)
    ensures !r <==> props.isWalletConnected && amount.Entered? && amount.value > 0.0 && !isLoading
  {
    !props.isWalletConnected || NothingToSubmit(amount) || isLoading
  }

  /**
   * The button and the handler agree except on the balance: an enabled button
   * submits every amount within the balance, and whatever the handler accepts
   * leaves the button enabled once loading is over.
   */
  lemma SubmitAgreesWithGuard(props: Props, amount: AmountField, isLoading: bool)
    ensures !SubmitDisabled(props, amount, isLoading) ==>
              (Accepted(amount, props).Some? <==>
                 (props.userBalance.Some? ==> amount.value <= props.userBalance.value))
    ensures Accepted(amount, props).Some? ==> !SubmitDisabled(props, amount, false)
  {
  }

  class DepositCard {
    var amount: AmountField
    var isLoading: bool

    constructor()
      ensures amount == Blank && !isLoading
    {
      amount, isLoading := Blank, false;
    }

    /** The field's `onChange`. */
    method SetAmount(value: AmountField)
      modifies this
      ensures amount == value && isLoading == old(isLoading)
    {
      amount := value;
    }

    /** `setQuickAmount`: one of the quick-amount buttons. */
    method SetQuickAmount(value: real)
      modifies this
      ensures amount == Entered(value) && isLoading == old(isLoading)
    {
      amount := Entered(value);
    }

    /** The Max button: the balance written into the field; with no balance, `toString` throws and nothing changes. */
    method Max(props: Props)
      modifies this
      ensures props.userBalance.Some? ==> amount == Entered(props.userBalance.value)
      ensures props.userBalance.None? ==> amount == old(amount)
      ensures isLoading == old(isLoading)
    {
      if props.userBalance.Some? {
        amount := Entered(props.userBalance.value);
      }
    }

    /**
     * `handleDeposit` up to the timer: on acceptance it sets the loading flag and
     * returns the amount the timer will deliver; otherwise nothing changes.
     */
    method HandleDeposit(props: Props) returns (scheduled: Option<real>)
      modifies this
      ensures scheduled == Accepted(old(amount), props)
      ensures scheduled.None? ==> unchanged(this)
      ensures scheduled.Some? ==> isLoading && amount == old(amount)
    {
      scheduled := Accepted(amount, props);
      if scheduled.Some? {
        isLoading := true;
      }
    }

    /**
     * The timer fires: `onDeposit` receives the scheduled amount, then the field
     * is cleared and loading ends.
     */
    method CompleteDeposit(depositAmount: real) returns (onDeposit: real)
      modifies this
      ensures onDeposit == depositAmount
      ensures amount == Blank && !isLoading
    {
      onDeposit := depositAmount;
      amount, isLoading := Blank, false;
    }
  }
}
