/**
 * The amount text field of the deposit and withdraw cards. The field is either
 * empty (the string "", which the handlers treat as falsy) or holds the number
 * `parseFloat` reads from it; for a number written back with `toString`,
 * `parseFloat` gives that number again.
 */
module Amount {

  datatype AmountField = Blank | Entered(value: real)

  /** `!amount || parseFloat(amount) <= 0`: the part of both submit buttons' disabled test about the field. */
  predicate NothingToSubmit(amount: AmountField) {
    amount.Blank? || amount.value <= 0.0
  }
}
