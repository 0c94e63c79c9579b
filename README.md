# Donation bot: ledger and menu logic

A model of the Realm-Bots donation bot. It covers two parts.

- **The donation ledger** (`database.py`). This is an append-only log of donations plus one
  aggregate account per donor. `record_donation` keeps the two in step. There are two read
  queries: one user's statistics and the leaderboard.
- **The pure decisions of the Telegram front-end** (`bot.py`, with the tier table of
  `config.py`). These are:
  - how the main-menu and stars keyboards are built and laid out two buttons per row;
  - what `menu_handler` does with each callback query;
  - how a stars amount is named after its tier;
  - the invoice a `stars:N` callback requests;
  - when a successful payment is acknowledged.

The modules are:

- `Wrappers`: the `Option` type.
- `Text`: the Python string operations the bot relies on. These are `str(int)`, the digit-only
  `int()`, `split(":")`, `split(":", 1)` and their round trips.
- `Config`: the stars tier table, in insertion order. Its labels are Unicode small capitals
  with a leading space.
- `Keyboards`: buttons, the two-per-row layout, the main-menu table decoding, and the stars
  keyboard.
- `Handlers`: tier lookup, the invoice, `menu_handler` as a function from callback data to a
  reply, and the successful-payment handler.
- `Database`: the ledger. The `DonationStore` class holds the two collections as fields. The
  log is a `seq` and the users collection is a `map` keyed by user id. `record_donation` is a
  method that updates both fields. The leaderboard is a method that builds the ranking by
  inserting accounts one at a time.

The ledger invariant `Consistent` holds when three things are true:

- every logged amount is positive;
- there is an account exactly for each user id that appears in the log;
- each account's `totalDonated` is the sum of that user's logged amounts.

`RecordDonation` preserves this invariant for a positive amount. The read queries are proved
against it.

Two behaviours of the code shape the contracts:

- **Non-positive amounts.** `record_donation` does not reject a non-positive amount. The model
  accepts any amount, and the invariant is promised only for positive ones.
- **Untiered amounts.** An amount with no tier is named "Donation".

## Model

| member | source | states |
|---|---|---|
| Text.NatToString | bot.py:87 | `str(n)` of a natural number is a non-empty digit string with no leading zero unless it is "0" |
| Text.IntToString | bot.py:94 | `str(n)` of any integer is non-empty, starts with '-' exactly when n is negative, and is the digits of n, or of -n after the sign |
| Text.ParseNat | bot.py:86 | the digit-only `int()` succeeds exactly on non-empty all-digit text |
| Text.ParseNatToString | bot.py:86-87 | parsing `str(n)` gives back `n` (round trip) |
| Text.IntToStringInjective | bot.py:87 | distinct integers have distinct decimal strings, so a `str(amount)` key lookup cannot confuse two amounts |
| Text.IndexOf | bot.py:86 | the first position of the separator, or none exactly when it does not occur |
| Text.Split | bot.py:86 | `split(":")` gives at least one field, at least two exactly when a colon occurs, and no field contains a colon |
| Text.SplitOnce | bot.py:27 | `split(":", 1)` gives one or two fields, two exactly when a colon occurs; the first field has no colon, and joining the fields restores the text |
| Text.JoinSplit | bot.py:86 | joining the fields of `split(":")` with ":" restores the text |
| Text.IndexAfterPrefix | bot.py:26-29 | in prefix + ":" + rest with a colon-free prefix, the first colon is right after the prefix |
| Text.SplitAfterPrefix | bot.py:86 | splitting prefix + ":" + rest gives the prefix followed by the fields of rest |
| Text.SplitOnceAfterPrefix | bot.py:27-29 | a single split of prefix + ":" + rest gives exactly [prefix, rest] |
| Text.FirstField | bot.py:86 | a colon-free field followed by nothing or by ":" is the first field of the split |
| Text.SecondField | bot.py:86 | the field after the first colon is the second field of the split |
| Text.TailLength | bot.py:94 | the length of what follows the last separator: that tail holds no separator, and a separator stands right before it unless it is the whole text (a proof helper for `Handlers.DonationPayloadIdentifies`) |
| Text.TailLengthAfterSep | bot.py:94 | after a separator, a separator-free tail is exactly what follows the last separator |
| Text.LastFieldUnique | bot.py:94 | a text that ends in a separator and a separator-free field splits there in one way only |
| Keyboards.Rows | bot.py:30 | the buttons are cut into (n+1)/2 rows; every row but the last has two buttons and the last has one when n is odd |
| Keyboards.RowsTail | bot.py:30 | past the first pair, the rows of a list are the rows of the list without that pair |
| Keyboards.FlattenRows | bot.py:30 | reading the rows left to right gives back the buttons in their order: the layout loses and reorders nothing |
| Keyboards.FlattenAppend | bot.py:41-42 | appending the Back row adds Back after all the tier buttons |
| Keyboards.DecodeEntry | bot.py:26-29 | "url:" data makes a link to the text after the first colon; other "callback:" data makes a callback with the text after the first colon; any other entry makes no button |
| Keyboards.DecodeEntries | bot.py:25-29 | decoding a menu table yields at most one button per entry |
| Keyboards.DecodeEntriesAppend | bot.py:25-29 | decoding keeps table order: decoding two tables in sequence gives each one's buttons in sequence |
| Keyboards.DecodeEntriesSnoc | bot.py:25-29 | one more entry adds its own button, if it makes one, at the end |
| Keyboards.DecodeEntriesSingle | bot.py:26-29 | a one-entry table yields that entry's button, if it makes one |
| Keyboards.UnknownEntryDropped | bot.py:26-29 | an entry with neither prefix is skipped without disturbing its neighbours |
| Keyboards.DecodeEntriesAllKnown | bot.py:25-29 | when every entry has a known prefix, button i is entry i decoded |
| Keyboards.MainMenuKeyboard | bot.py:23-30 | the main-menu keyboard is the decoded table laid out two per row, and its buttons read in order are the decoded table |
| Keyboards.StarsKeyboard | bot.py:35-43 | the stars keyboard is the tier buttons two per row plus a final row holding only Back; its buttons in order are each tier's button, then Back |
| Keyboards.TierButton | bot.py:37-40 | a tier button is a callback button whose data is "stars:" followed by the amount, and whose caption is the amount, a space, then the tier label |
| Keyboards.TierButtons | bot.py:36-40 | one tier button per table entry, in table order, button i sending "stars:" + the key of entry i |
| Handlers.Lookup | bot.py:87 | `dict.get(key, default)` returns the default when no key matches, else the value of the first matching key; it never returns anything but the default or a value stored under the key |
| Handlers.LookupAmount | bot.py:87 | looking up `str(amount)` in a table keyed by distinct amounts finds that amount's entry, or the default when no entry has it |
| Handlers.TierKeysSpellAmounts | config.py:50-59 | the tier keys are the decimal strings of 5, 10, 25, 50, 100, 200, 500 and 1000, in table order |
| Handlers.TierAmountsDistinct | config.py:50-59 | no two tiers share an amount |
| Handlers.TierLabelsNotDefault | config.py:50-59 | no tier label is the fallback "Donation" |
| Handlers.TierNameExact | bot.py:87 | an amount has a tier name exactly when it is one of the tier amounts, and then it is that tier's label; any other amount, even one between two tiers, is "Donation" |
| Handlers.TierName | bot.py:87 | the tier name of an amount is either "Donation" or the label of a tier whose key is `str(amount)` |
| Handlers.MenuHandler | bot.py:57-104 | the three screen names switch screens; exactly the data starting with "stars:" leads to an invoice or the error alert; the error alert is the only answer; an invoice goes to the user's own chat in XTR with one price; all other data is ignored |
| Handlers.AmountField | bot.py:86 | in "stars:" + field + rest, the amount read is `field` |
| Handlers.DonationPayload | bot.py:94 | the payload starts with "stars-donation-" and ends with "-" and `str(amount)` |
| Handlers.DonationPayloadIdentifies | bot.py:94 | two payloads are equal only for the same donor and the same amount: the payload identifies the donation |
| Handlers.StarsInvoice | bot.py:90-97 | the invoice goes to the donor's own chat, in XTR, with one price whose amount is the donated amount, under the donation payload |
| Handlers.StarsInvoiceFields | bot.py:90-97 | the invoice's chat, currency, payload "stars-donation-{user}-{N}", single price "{N} Telegram Stars" of N, description and tier title, for every user and amount |
| Handlers.StarsInvoiceTitle | bot.py:87-92 | the invoice title is the amount's tier label followed by " Tier Donation", or "Donation Tier Donation" for an amount with no tier |
| Handlers.InvoiceReply | bot.py:90-98 | a valid "stars:N" callback sends the invoice for N and answers with a toast, not an alert |
| Handlers.StarsCallbackRoundTrip | bot.py:85-98 | the callback "stars:N" (and any further ":" field) requests the invoice for exactly N, with its "Preparing N Stars invoice..." toast |
| Handlers.NonNumericAmountFails | bot.py:85-104 | a non-numeric amount field makes the parse fail: the error alert is answered and no invoice is sent |
| Handlers.StarsKeyboardRoutes | bot.py:35-43 | tier button i of the stars keyboard requests the invoice for tier i's amount, titled with tier i's label; Back returns to the main menu |
| Handlers.PaymentHandler | bot.py:106-116 | a payment is acknowledged exactly when its currency is XTR |
| Handlers.PaidInvoiceAcknowledged | bot.py:106-116 | paying a stars invoice in full is acknowledged with the thank-you for that amount, and names the tier the invoice title names |
| Handlers.ThankYou | bot.py:112-116 | the thank-you message holds the amount and the tier name at fixed places between its fixed lead, middle and closing text |
| Handlers.PaymentNamesTier | bot.py:108-116 | the thank-you for an XTR payment names the paid amount's tier label, or "Donation" for an amount with no tier |
| Handlers.CryptoKeyboardRoutes | bot.py:32-33 | the crypto keyboard (`Keyboards.CryptoKeyboard`) holds only the Back button, and Back returns to the main menu |
| Database.Upsert | database.py:21-33 | the upsert leaves an account for the user, adds the amount to its total (from 0 when there was none), overwrites the name, username, tier and timestamp, and leaves every other account unchanged |
| Database.UpsertTwice | database.py:21-33 | two upserts for one user add both amounts, and the later one's other fields win |
| Database.LedgerTotalAppend | database.py:14-24 | logging a donation adds its amount to its own user's ledger total and nothing to any other user's |
| Database.DonorIffPositiveTotal | database.py:35-37 | when every logged amount is positive, a user appears in the log exactly when their ledger total is positive; a user absent from the log has total 0 |
| Database.RecordKeepsConsistent | database.py:11-33 | a log append plus the matching `$inc`/`$set` upsert keep the ledger invariant, for a positive amount |
| Database.DonationStore.constructor | database.py:6-9 | a fresh store has an empty log and no accounts, and satisfies the invariant |
| Database.DonationStore.RecordDonation | database.py:11-33 | one log entry is appended; the donor's account exists afterwards with total = old total (0 if absent) + amount and the new name, username, tier and timestamp; every other account is unchanged; the invariant is kept for a positive amount |
| Database.DonationStore.GetUserStats | database.py:35-37 | returns the stored account or nothing; under the invariant, an account exists exactly for users in the log, and it carries their positive ledger total |
| Database.DonationStore.GetLeaderboard | database.py:39-43 | as many accounts as the limit (10 by default) allows, distinct and stored, in non-increasing order of total; every account left out has a total no larger than the last one listed |
| Database.DonationStore.SortedAccounts | database.py:41-42 | every account exactly once, largest total first |
| Database.LimitCount | database.py:42 | a cursor limit of 0 keeps everything, a negative limit counts as its absolute value, and otherwise at most the limit is kept |
| Database.InsertPos | database.py:42 | the insertion point is after every larger-or-equal total and before every smaller one |
| Database.InsertByTotalAt | database.py:42 | inserting an account puts it at its insertion point and shifts the rest |
| Database.InsertByTotalSorted | database.py:42 | inserting by total keeps a ranking sorted |
| Database.InsertByTotalMembers | database.py:42 | inserting adds exactly the new account to the ranking's members |
| Database.InsertByTotalDistinct | database.py:42 | inserting a new user's account keeps user ids distinct |
| Database.LeaderboardIsTop | database.py:39-43 | the first n entries of a sorted ranking of all accounts are the top n: nothing left out has a larger total than the last kept |
| Database.TopOfSorted | database.py:42 | cutting a sorted list leaves out no larger total than the last one kept |
| Database.DistinctIdsCount | database.py:41-43 | a list of accounts with distinct ids has one entry per id |

## Left out

- Messaging I/O is not modelled: Pyrogram, message editing, replies, `send_invoice` and
  `answer` calls. `MenuHandler` returns what would be sent or answered, as a value.
- The `MessageNotModified` branch is left out. Errors raised by network calls are left out too;
  in the source they lead to the same "An error occurred." alert. Both are I/O failures the
  model cannot see.
- `start_handler` and the bot's start-up (`main`, `app.run`) are pure I/O.
- The display texts are not transcribed, and neither is `MAIN_MENU_BUTTONS`. The display texts
  are `START_TEXT`, `CRYPTO_TEXT` and `STARS_TEXT`. The menu table is a parameter of
  `MainMenuKeyboard`, and a screen is named by the `Screen` value.
- Environment settings are configuration read at start-up, with no logic. They are the API
  credentials, `MONGO_URI`, `LOG_CHANNEL_ID` and `OWNER_ID`.
- MongoDB itself is not modelled. This covers connections, durability, indexes, and the two
  writes of `record_donation` not being atomic. Concurrent callers are not modelled either.
  Each method runs as one uninterrupted step.
- The clock is a parameter. The two `utcnow()` readings of `record_donation` are the
  `loggedAt` and `updatedAt` arguments.
- Text.ParseNat: models `int()` only on ASCII digit strings. Python also accepts a sign,
  surrounding whitespace, underscores between digits and non-ASCII digits. Such data fails in
  the model. A callback built by the stars keyboard never carries it. A negative amount would
  make `send_invoice` fail at the payment service, which ends in the same error alert.
- Handlers.MenuHandler: takes the callback data as a string. The case where
  `CallbackQuery.data` is absent is not modelled.
- Database.DonationStore.GetLeaderboard: the order among accounts with equal totals is not
  fixed, because MongoDB does not fix it either. It requires the ledger invariant, because the
  ranking is built from the log.
- Database.DonationStore.SortedAccounts: reads the users in the order they first appear in the
  log, which is the order their account documents were created. It requires the ledger
  invariant for the same reason as `GetLeaderboard`.
- Database.DonationStore.RecordDonation: `username` is a plain string. The case where a
  Telegram user has no username is not modelled.
- `bot.py` never calls `record_donation`, so no model member links a payment to the ledger.
  `PaymentHandler` only acknowledges the payment.
