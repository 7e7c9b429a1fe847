# Prize vault for Massa: a verified model of the front end's core

The prize vault is a no-loss lottery on the Massa blockchain. Users deposit MAS and receive one
ticket per MAS. The yield of the pooled deposits is paid out as prizes, and deposits can be withdrawn
at any time. This project models the client-side core of its web front end in Dafny and proves
properties of that model:

- **The Massa client** (`Massa`). This is the adapter over the wallet provider that the Massa Station
  extension injects as `window.massa`. It covers connecting, reading the account, the connection
  probe and disconnecting. It also covers the generic contract call with its little-endian u64
  parameter encoding and MAS-to-nanoMAS coins, the deposit and withdraw guards, and address
  shortening.
- **The wallet store and the transaction store** (`Wallet`). These are process-wide state objects.
  They hold the connect, disconnect and refresh actions, the persisted subset of the state, and the
  revalidation run when the persisted state is loaded.
- **The vault page** (`Vault`). It holds the user's balance and tickets, its deposit and withdraw
  handlers, its mock pool statistics, and the props it hands to its cards.
- **The deposit and withdraw cards** (`Deposit`, `Withdraw`, sharing `Amount`). Each has an amount
  field, guards, disabled-button expressions and a simulated two-second confirmation.
- **The odds meter** (`Odds`), the **stats bar** (`Stats`: the countdown and compact numbers), and
  the **winners feed** (`Winners`: a list capped at ten, and "time ago" labels).
- **The verification page's event explorer** (`Verify`): a case-insensitive search, event colours
  and data-key labels.

Shared modules:

- `Wrappers` holds `Option` and `Result`.
- `Text` holds ASCII lower-casing, substring search and decimal rendering.
- `Arith` holds division lemmas.

## How the model is built

- **Provider answers are parameters.** The wallet provider is external code. Each operation takes,
  as a parameter, what the provider answers during the call: a `Reply` that either returns a value
  or throws. Where the answer depends on what the client sends, the parameter is a function from the
  request to the answer. This is the case for the balance of an address and for the contract-call
  requests, so the exact request the client sends is visible to the proofs.
- **Entities the source updates in place are classes.** The stores, the page and the cards are
  classes with `modifies` clauses. The client never reassigns its provider after construction, so it
  is a datatype.
- **Card timers are split in two.** A card's submit handler becomes two methods. `HandleDeposit` and
  `HandleWithdraw` run up to the timer and return the amount scheduled. `CompleteDeposit` and
  `CompleteWithdraw` are the timer firing.
- **Amounts are exact.** Amounts are `real`. `Math.floor` and `BigInt`'s integrality test use
  `Floor`.
- **Timestamps are integers.** ISO timestamps are taken as epoch milliseconds. The mock draw time
  `2024-01-15T20:00:00Z` is 1705348800000.

The comments in the wallet store promise more than its code does, and the model follows the code:

- **A failed refresh does not log out.** The comment in `refreshAccount`
  (src/hooks/useWallet.ts:111) says a failed refresh logs the user out. But `getAccount`
  (src/lib/massa.ts:63-78) catches every provider error and returns null. So the store stays
  connected with no account, and the logout branch cannot run. `Wallet.RefreshNeverLogsOut`
  proves this.
- **Rehydration does not clear everything on failure.** The comments in rehydration
  (src/hooks/useWallet.ts:137 and 150) say the state is cleared when the account or the connection
  cannot be checked. However, `isConnected` never rejects either. A provider error during
  rehydration therefore clears the state only through the `isConnected() == false` path. A failure
  of the account fetch keeps the connection, with no account.

## Model

| member | source | states |
|---|---|---|
| Text.ToLower | src/pages/Verify.tsx:96-97 | lower-casing keeps the length and lowers each character independently; a lowered character is never upper case |
| Text.LowerIsIdempotent | src/pages/Verify.tsx:251 | a lowered string has no capitals and lowering it again changes nothing |
| Text.Contains | src/pages/Verify.tsx:96-97 | a contained string is no longer than the text, and a prefix is always contained |
| Text.ContainsAt | src/pages/Verify.tsx:96-97 | `includes` holds exactly when the query occurs at some index of the text |
| Text.DecimalString | src/components/vault/StatsBar.tsx:29-31 | a number renders as a non-empty run of digits with no leading zero |
| Text.DecimalRoundTrip | src/components/vault/StatsBar.tsx:29-31 | reading the rendered digits back gives the number again |
| Text.DecimalStringInjective | src/components/vault/WinnersFeed.tsx:96-98 | different counts render as different texts |
| Massa.LeValue | src/lib/massa.ts:108-113 | a little-endian byte string of length n denotes a number below 256^n |
| Massa.U64Bytes | src/lib/massa.ts:108-113 | the encoded parameter is always eight bytes |
| Massa.TwoTo64IsPow256 | src/lib/massa.ts:109-111 | eight bytes hold exactly the values below 2^64 |
| Massa.LeBytesAt | src/lib/massa.ts:111 | byte i of the little-endian encoding is (v / 256^i) mod 256 |
| Massa.LeValueOfLeBytes | src/lib/massa.ts:111 | decoding the n low little-endian bytes of any natural v gives v mod 256^n |
| Massa.LeValueOfLeBytesInRange | src/lib/massa.ts:111 | a natural below 256^n is given back whole by its n little-endian bytes |
| Massa.LeBytesOfLeValue | src/lib/massa.ts:111 | encoding the value of a byte string gives the byte string back |
| Massa.U64RoundTrip | src/lib/massa.ts:108-113 | a value in [0, 2^64) decodes back from its eight bytes |
| Massa.U64Wraps | src/lib/massa.ts:111 | values that agree mod 2^64 (negatives included) encode to the same bytes |
| Massa.EncodeU64 | src/lib/massa.ts:108-113 | the method fills a fresh 8-byte array, byte by byte, with exactly the little-endian bytes of the value mod 2^64 |
| Massa.EncodeParameter | src/lib/massa.ts:121 | an absent parameter encodes to none; an integer encodes to its u64 bytes; a non-integer fails as `BigInt` does |
| Massa.MassaClient.ConnectWallet | src/lib/massa.ts:46-61 | no provider gives the "not installed" error; a rejection or an empty account list gives the generic connect error; otherwise the first account |
| Massa.MassaClient.GetAccount | src/lib/massa.ts:63-78 | an account is returned exactly when the provider is present, lists an account and answers the balance of the first one; it is that address with that balance |
| Massa.MassaClient.IsConnected | src/lib/massa.ts:80-89 | true exactly when a provider is present and answers true |
| Massa.MassaClient.Disconnect | src/lib/massa.ts:91-100 | fails exactly when a present provider rejects, and then with the provider's own error |
| Massa.MassaClient.SmartContractCall | src/lib/massa.ts:120-128 | the request carries the fixed contract address, the function name, coins times 10^9 and, exactly when one was given, the parameter's u64 encoding; it cannot be built for a non-integer parameter |
| Massa.MassaClient.CallSC | src/lib/massa.ts:115-135 | without a provider "wallet not connected"; a parameter or provider failure becomes "transaction failed" with its cause; otherwise the provider's transaction id for exactly the built request |
| Massa.MassaClient.ReadOnly | src/lib/massa.ts:137-156 | the same cases as the contract call, for a read request without coins, with "read operation failed" |
| Massa.MassaClient.Deposit | src/lib/massa.ts:159-164 | amounts below 0.01 are rejected locally; otherwise a `deposit` call with the amount as coins and no parameter |
| Massa.MassaClient.Withdraw | src/lib/massa.ts:166-171 | non-positive shares are rejected locally; otherwise a `withdraw` call with no coins and the shares as parameter |
| Massa.NewClient | src/lib/massa.ts:38-40 | the client's provider is whatever the window holds when it is built |
| Massa.GuardsPrecedeProvider | src/lib/massa.ts:159-171 | a rejected deposit or withdrawal has the same outcome whatever the provider would answer, and reports "Minimum deposit amount is 0.01 MAS" or "Invalid shares amount" |
| Massa.AvailabilityIsReadLive | src/lib/massa.ts:38-48 | `isWalletAvailable` follows the current window; a provider injected after the client was built is reported as available while `connectWallet` still fails as "not installed" |
| Massa.DepositRequest | src/lib/massa.ts:159-164 | an accepted deposit sends the amount in nanoMAS to the contract's `deposit` with no parameter |
| Massa.WithdrawRequest | src/lib/massa.ts:166-171 | a withdrawal of a whole number of shares sends no coins and eight bytes that decode to the shares |
| Massa.FormatAddress | src/lib/massa.ts:174-177 | addresses of at most 10 characters are unchanged; longer ones become the first six, "..." and the last four |
| Massa.FormatAddressIdempotent | src/lib/massa.ts:174-177 | formatting a formatted address changes nothing |
| Wallet.WalletStore.constructor | src/hooks/useWallet.ts:26-29 | the store starts disconnected, with no address, no account and not connecting |
| Wallet.WalletStore.SetConnecting | src/hooks/useWallet.ts:32-34 | only the connecting flag changes |
| Wallet.WalletStore.Connect | src/hooks/useWallet.ts:36-74 | without a wallet nothing changes; on success address, connected flag and account are written together and connecting ends; on failure only connecting is cleared; the store invariant is kept |
| Wallet.WalletStore.Disconnect | src/hooks/useWallet.ts:76-100 | the local state is cleared whether or not the provider's disconnect rejects |
| Wallet.WalletStore.RefreshAccount | src/hooks/useWallet.ts:102-119 | a disconnected store is untouched; a connected one only replaces its account with a fresh fetch |
| Wallet.RefreshNeverLogsOut | src/hooks/useWallet.ts:106-118 | refreshing a connected store keeps it connected at the same address and leaves the connecting flag alone; the account is cleared exactly when there is no provider, the account list is rejected or empty, or the balance query is rejected |
| Wallet.RevalidationCases | src/hooks/useWallet.ts:130 | a rehydrated state is re-checked only when connected with a non-empty address; a disconnected one, or one with no or an empty address, is restored without asking the wallet |
| Wallet.WalletStore.Partialize | src/hooks/useWallet.ts:123-127 | only the address and the connected flag are persisted |
| Wallet.WalletStore.Rehydrate | src/hooks/useWallet.ts:129-159 | a persisted connected, non-empty address is kept with a fresh account when the provider still reports a connection, and is fully cleared otherwise; any other persisted state is loaded as is |
| Wallet.TransactionStore.constructor | src/hooks/useWallet.ts:178-180 | no transaction pending and no hash |
| Wallet.TransactionStore.SetPending | src/hooks/useWallet.ts:182 | only the pending flag changes |
| Wallet.TransactionStore.SetHash | src/hooks/useWallet.ts:183 | only the hash changes |
| Wallet.TransactionStore.Reset | src/hooks/useWallet.ts:184 | nothing pending and no hash |
| Deposit.Accepted | src/components/vault/DepositCard.tsx:22-26 | the handler goes on exactly with a non-empty positive amount on a connected card that is within the balance, when a balance is given |
| Deposit.SubmitDisabled | src/components/vault/DepositCard.tsx:124-126 | the button is enabled exactly on a connected card with a positive amount while not loading |
| Deposit.SubmitAgreesWithGuard | src/components/vault/DepositCard.tsx:22-26 | an enabled button leads to a deposit exactly when the amount is within the balance, and an accepted amount leaves the button enabled |
| Deposit.QuickAmountsSubmittable | src/components/vault/DepositCard.tsx:20 | each quick amount (1, 5 and 10 MAS) enables the submit button of a connected, idle card |
| Deposit.DepositCard.constructor | src/components/vault/DepositCard.tsx:17-18 | the field starts empty and the card not loading |
| Deposit.DepositCard.SetAmount | src/components/vault/DepositCard.tsx:68 | the field takes the typed value |
| Deposit.DepositCard.SetQuickAmount | src/components/vault/DepositCard.tsx:38-40 | a quick amount is written into the field |
| Deposit.DepositCard.Max | src/components/vault/DepositCard.tsx:78 | the balance is written into the field; without a balance the field is unchanged |
| Deposit.DepositCard.HandleDeposit | src/components/vault/DepositCard.tsx:22-28 | an accepted amount starts loading and is scheduled; otherwise nothing changes |
| Deposit.DepositCard.CompleteDeposit | src/components/vault/DepositCard.tsx:31-35 | the callback receives the amount, the field is cleared and loading ends |
| Withdraw.Accepted | src/components/vault/WithdrawCard.tsx:19-23 | the handler goes on exactly with a non-empty amount in (0, balance] on a connected card |
| Withdraw.SubmitDisabled | src/components/vault/WithdrawCard.tsx:109 | the button is enabled exactly on a connected card with a positive amount, a non-zero balance, while not loading |
| Withdraw.ZeroBalanceLocksCard | src/components/vault/WithdrawCard.tsx:70-109 | with nothing deposited every control is disabled and no amount is accepted |
| Withdraw.SubmitAgreesWithGuard | src/components/vault/WithdrawCard.tsx:19-23 | an enabled button leads to a withdrawal exactly when the amount is within the balance, and an accepted amount leaves the button enabled |
| Withdraw.WithdrawCard.constructor | src/components/vault/WithdrawCard.tsx:16-17 | the field starts empty and the card not loading |
| Withdraw.WithdrawCard.SetAmount | src/components/vault/WithdrawCard.tsx:69 | the field takes the typed value |
| Withdraw.WithdrawCard.Max | src/components/vault/WithdrawCard.tsx:79 | the deposited balance is written into the field |
| Withdraw.WithdrawCard.HandleWithdraw | src/components/vault/WithdrawCard.tsx:19-25 | an accepted amount starts loading and is scheduled; otherwise nothing changes |
| Withdraw.WithdrawCard.CompleteWithdraw | src/components/vault/WithdrawCard.tsx:28-32 | the callback receives the amount, the field is cleared and loading ends |
| Odds.WinChance | src/components/vault/OddsMeter.tsx:13 | the chance is the user's share of all tickets in percent, and 0 without tickets in the pool |
| Odds.OddsOf | src/components/vault/OddsMeter.tsx:14 | the odds are the whole part of total / max(user, 1), and 0 without tickets in the pool |
| Odds.Progress | src/components/vault/OddsMeter.tsx:50 | the bar shows ten times the chance, capped at 100 |
| Odds.NoTicketsOddsAreTotal | src/components/vault/OddsMeter.tsx:14 | with no tickets of one's own the odds are 1 in the whole total |
| Odds.OddsWithinTotal | src/components/vault/OddsMeter.tsx:14 | the odds lie between 0 and the total |
| Odds.WinChanceIsPercentage | src/components/vault/OddsMeter.tsx:13 | a share of the tickets gives a chance between 0 and 100 |
| Odds.OddsMonotone | src/components/vault/OddsMeter.tsx:14 | for any two ticket counts, fractional ones below one included, more tickets never give larger odds |
| Odds.FiftyOfFiveThousand | src/components/vault/OddsMeter.tsx:13-14 | 50 of 5000 tickets give a 1% chance and odds of 1 in 100 |
| Odds.PlaceholderIffNoChance | src/components/vault/OddsMeter.tsx:13-27 | with tickets in the pool, the "make a deposit" placeholder replaces the odds exactly when the user's chance is 0 |
| Stats.TimeLeftOf | src/components/vault/StatsBar.tsx:21-26 | the countdown is "drawing now" exactly when the draw is due; otherwise hours < 24, minutes < 60, and the days, hours and minutes account for the time left to within a minute |
| Stats.DrawingNowIffDue | src/components/vault/StatsBar.tsx:23-35 | the text "Drawing now..." appears exactly when the draw time has been reached |
| Stats.DaysShownIffADayLeft | src/components/vault/StatsBar.tsx:23-32 | the countdown shows a days part ("Dd Hh Mm" rather than "Hh Mm") exactly when at least a full day is left |
| Stats.StatsBar.constructor | src/components/vault/StatsBar.tsx:15 | the countdown text starts empty |
| Stats.StatsBar.CalculateTimeLeft | src/components/vault/StatsBar.tsx:18-36 | the countdown text becomes the rendering of the days, hours and minutes left, or "Drawing now..." |
| Stats.FormatNumber | src/components/vault/StatsBar.tsx:44-52 | numbers from a million are shown in millions, from a thousand in thousands (between 1 and 1000 of them), smaller ones as they are |
| Vault.TotalTickets | src/pages/Vault.tsx:83 | the pool holds 15 tickets for each of the 342 participants, 5130 |
| Vault.VaultPage.constructor | src/pages/Vault.tsx:11-12 | balance and tickets start at zero |
| Vault.VaultPage.HandleDeposit | src/pages/Vault.tsx:14-17 | a deposit adds its amount to the balance and to the tickets |
| Vault.VaultPage.HandleWithdraw | src/pages/Vault.tsx:26-31 | a withdrawal above the balance is ignored; otherwise it is taken from the balance and from the tickets, which stay at least zero; tickets keep matching the balance |
| Vault.VaultPage.OddsInputs | src/pages/Vault.tsx:81-84 | the odds meter gets the user's tickets and the pool's total tickets |
| Vault.DepositThenWithdraw | src/pages/Vault.tsx:14-31 | depositing and withdrawing the same amount restores balance and tickets |
| Vault.CardsAreInertOnPage | src/pages/Vault.tsx:62-73 | as the page wires them, neither card ever accepts an amount and both submit buttons stay disabled |
| Vault.ClampInactive | src/pages/Vault.tsx:29 | while tickets match the balance, the zero floor on tickets never engages |
| Vault.StatsDisplay | src/pages/Vault.tsx:34-39 | the mock figures fall in the thousands, plain and thousands buckets, with scaled values 125, 342 and 2.5 |
| Vault.MockDrawIsDue | src/pages/Vault.tsx:38 | once the clock reaches the mock draw time the countdown reads "Drawing now..." |
| Vault.EmptyPageOdds | src/pages/Vault.tsx:81-84 | with no tickets the page shows the placeholder; the odds it computes are 1 in 5130 |
| Winners.PrependCapped | src/components/vault/WinnersFeed.tsx:81 | the new winner comes first, followed by the previous list in order, at most ten in all |
| Winners.Reverse | src/components/vault/WinnersFeed.tsx:81 | the winners newest first, as prepending one after another lists them |
| Winners.SettleAllKeepsNewest | src/components/vault/WinnersFeed.tsx:79-83 | after any sequence of new winners, the feed holds the ten most recent, newest first, followed by older entries |
| Winners.WinnersFeed.constructor | src/components/vault/WinnersFeed.tsx:18-56 | the feed starts with exactly the five mock winners, in their order, and no highlighted winner |
| Winners.MockWinnersNewestFirst | src/components/vault/WinnersFeed.tsx:18-54 | the mock list fits the ten-entry cap and is ordered newest first |
| Winners.WinnersFeed.Announce | src/components/vault/WinnersFeed.tsx:70 | a drawn winner is highlighted; the list is unchanged |
| Winners.WinnersFeed.Settle | src/components/vault/WinnersFeed.tsx:80-83 | the winner joins the head of the list capped at ten, and the highlight is cleared |
| Winners.TimeAgo | src/components/vault/WinnersFeed.tsx:90-98 | "just now" exactly below one minute (the future included); each other bucket brackets the elapsed time in whole minutes, hours or days |
| Winners.TimeAgoMonotone | src/components/vault/WinnersFeed.tsx:90-98 | a later clock never shows a fresher label for the same timestamp: the bucket (just now, minutes, hours, days) never moves back, and within a bucket the count never decreases |
| Winners.AgoTextInjective | src/components/vault/WinnersFeed.tsx:95-98 | distinct buckets or counts never print the same label, so the label gives back the bucket and its count |
| Winners.FormatTimeAgoJustNow | src/components/vault/WinnersFeed.tsx:90-95 | "Just now" is displayed exactly when less than a minute has passed, a time in the future included |
| Verify.FilterEvents | src/pages/Verify.tsx:95-98 | the search keeps exactly the events whose name or transaction hash contains the query, ignoring case, every copy of each, in their original order |
| Verify.MatchesAt | src/pages/Verify.tsx:96-97 | an event matches exactly when the lower-cased query occurs at some index of its lower-cased name or transaction hash |
| Verify.EmptyQueryKeepsAll | src/pages/Verify.tsx:95-98 | the empty query keeps every event |
| Verify.FilterIgnoresCase | src/pages/Verify.tsx:96-97 | queries differing only in letter case give the same result |
| Verify.FilterIdempotent | src/pages/Verify.tsx:95-98 | searching the results again with the same query changes nothing |
| Verify.EventColor | src/pages/Verify.tsx:104-111 | each of the four known events gets its class, and exactly the unknown ones get the muted default |
| Verify.EventColorDistinguishesKnown | src/pages/Verify.tsx:104-111 | different known events get different classes |
| Verify.KeyLabel | src/pages/Verify.tsx:251 | a data key's label has no capitals and is one character longer per capital |
| Verify.SpaceBeforeCapitals | src/pages/Verify.tsx:251 | inserting a space before each capital adds one character per capital, and every capital of the result has a space just before it |
| Verify.KeyLabelUndoesSpacing | src/pages/Verify.tsx:251 | removing the spaces from the label of a key without spaces gives the key lower-cased |
| Verify.OneCapitalLabel | src/pages/Verify.tsx:251 | a key with one capital is labelled as the two words in lower case, separated by a space |
| Verify.RandomSeedLabel | src/pages/Verify.tsx:251 | the key `randomSeed` is labelled "random seed" |
| Verify.NewTicketsLabel | src/pages/Verify.tsx:251 | the key `newTickets` is labelled "new tickets" |
| Verify.TicketsLostLabel | src/pages/Verify.tsx:251 | the key `ticketsLost` is labelled "tickets lost" |

## Left out

- The wallet provider itself (`window.massa` and the Massa Station extension) is external. Its
  answers are parameters of each operation, and only its presence in the window is modelled.
- Toasts, `console.error` logging, confetti and animations are presentational and have no
  effect on state.
- Zustand's storage mechanics (local storage, serialisation, the storage key) are not modelled.
  Rehydration is a method that takes the persisted record.
- Timers, intervals and `Math.random` are not modelled: `setTimeout` and `setInterval` with their
  cancellation, and the random draw of a new winner with its random address, prize and hash. Each
  timer callback is a method the caller runs, and the drawn winner is a parameter.
- Reading the clock is not modelled. `new Date()` and `Date.parse` of ISO timestamps become epoch
  milliseconds passed in, and `formatTimestamp`'s locale rendering is left out.
- `masToNanoMas`'s decimal string and IEEE double rounding are not modelled. Coins are the exact
  product amount × 10^9.
- `BigInt(value)` is not modelled for values that are not finite numbers. Only the non-integer
  case is modelled.
- `Stats.FormatNumber` does not model `toFixed(1)` or `toLocaleString`. It states the scaled value
  and the suffix bucket, not their digits.
- `Odds.WinChance` does not model the three-decimal rendering of `toFixed(3)`.
- `Massa.ClientError.Message` gives the fixed part of each error message. For "Transaction failed"
  and "Read operation failed" the appended provider text is kept as the error's cause instead.
- The reading of the amount field by `parseFloat` is not modelled. The field is either empty or
  holds a number, so a field whose text reads as `NaN` is not modelled.
- `readOnly`'s result string is returned without decoding, exactly as in the source.
- `Text.ToLower` lowers only ASCII letters. JavaScript's `toLowerCase` also lowers non-ASCII
  letters.
- The mock event list that the verification page loads once, and the contract information card,
  are not modelled. Events are a parameter of the search, and their `data` payload is a list of
  key and printed-value pairs.
- The `searchQuery` and `events` state setters of the verification page are not modelled. The
  search is modelled as a function of both.
- `Wallet.WalletStore.Rehydrate` models the `.catch` branches of rehydration as absent. Neither
  `isConnected` nor `getAccount` ever rejects, so those branches cannot run.
- The rendering of the cards, the page and the feed (JSX, icons, layout) is not modelled.
- Interleaving of asynchronous actions is not modelled. Each store action, rehydration and card
  timer runs as one atomic step. In the source, the awaits of different actions can interleave.
  For example, a `disconnect` that completes during `refreshAccount`'s await
  (src/hooks/useWallet.ts:107) lets the late `set({ account })` write an account into a
  disconnected store. The late `setState({ account })` of rehydration (src/hooks/useWallet.ts:135)
  can do the same. `Wallet.WalletStore.Valid` ("only a connected store caches an account") holds
  only under this no-interleaving assumption.
- `Vault.VaultPage.HandleWithdraw` tests the balance at the moment it runs. In the source, the
  balance tested (src/pages/Vault.tsx:27) is the one captured when the card's timer was scheduled,
  while the updates at src/pages/Vault.tsx:28-29 apply to the latest value.
