/**
 * The decisions the bot's handlers make, with the messaging I/O left out:
 * which screen a callback query opens, the invoice a "stars:N" callback
 * requests, the tier a stars amount belongs to, and whether a successful
 * payment is acknowledged.
 */
module Handlers {
  import opened Wrappers
  import opened Text
  import opened Config
  import opened Keyboards

  /** `table.get(key, default)` on an insertion-ordered table. */
  function Lookup(table: seq<(string, string)>, key: string, default: string): (r: string)
    ensures (forall i :: 0 <= i < |table| ==> table[i].0 != key) ==> r == default
    ensures forall i :: 0 <= i < |table| && table[i].0 == key && (forall j :: 0 <= j < i ==> table[j].0 != key) ==> r == table[i].1
    ensures r == default || exists i :: 0 <= i < |table| && table[i].0 == key && r == table[i].1
  {
    if table == [] then default
    else if table[0].0 == key then table[0].1
    else
      assert forall i :: 1 <= i < |table| ==> table[1..][i - 1] == table[i];
      Lookup(table[1..], key, default)
  }

  /** The tier label of a stars amount: `STARS_TIERS.get(str(amount), "Donation")`. */
  function TierName(amount: int): (name: string)
    ensures name == "Donation" ||
      exists i :: 0 <= i < |StarsTiers| && StarsTiers[i].0 == IntToString(amount) && name == StarsTiers[i].1
  {
    Lookup(StarsTiers, IntToString(amount), "Donation")
  }

  /** The tier keys are the decimal strings of the tier amounts. */
  lemma TierKeysSpellAmounts()
    ensures |StarsTiers| == |TierAmounts|
    ensures forall i :: 0 <= i < |StarsTiers| ==> StarsTiers[i].0 == NatToString(TierAmounts[i])
  {
    assert NatToString(5) == "5";
    assert NatToString(10) == "10";
    assert NatToString(25) == "25";
    assert NatToString(50) == "50";
    assert NatToString(100) == "100";
    assert NatToString(200) == "200";
    assert NatToString(500) == "500";
    assert NatToString(1000) == "1000";
  }

  /**
   * Tier lookup is by exact match: an amount has a tier exactly when it is
   * one of the table's amounts, and then it gets that entry's label. Any
   * other amount, including one between two tiers, is a plain "Donation".
   */
  lemma TierNameExact(amount: int)
    ensures TierName(amount) != "Donation" <==> amount in TierAmounts
    ensures forall i :: 0 <= i < |TierAmounts| && TierAmounts[i] == amount ==> TierName(amount) == StarsTiers[i].1
  {
    TierKeysSpellAmounts();
    TierAmountsDistinct();
    TierLabelsNotDefault();
    LookupAmount(StarsTiers, TierAmounts, amount, "Donation");
    if amount in TierAmounts {
      var i :| 0 <= i < |TierAmounts| && TierAmounts[i] == amount;
      assert TierName(amount) == StarsTiers[i].1;
    }
  }

  /** No two tiers share an amount. */
  lemma TierAmountsDistinct()
    ensures forall i, j :: 0 <= i < j < |TierAmounts| ==> TierAmounts[i] != TierAmounts[j]
  {
  }

  /** No tier label is the fallback label "Donation": every label starts with a space. */
  lemma TierLabelsNotDefault()
    ensures forall i :: 0 <= i < |StarsTiers| ==> StarsTiers[i].1 != "Donation"
  {
    forall i | 0 <= i < |StarsTiers|
      ensures StarsTiers[i].1 != "Donation"
    {
      assert StarsTiers[i].1[0] == ' ';
    }
  }

  /**
   * Looking up `str(amount)` in a table whose keys spell distinct amounts
   * finds the entry of that amount, or nothing when no entry has it.
   */
  lemma {:induction false} LookupAmount(table: seq<(string, string)>, amounts: seq<nat>, amount: int, default: string)
    requires |table| == |amounts|
    requires forall i :: 0 <= i < |table| ==> table[i].0 == NatToString(amounts[i])
    requires forall i, j :: 0 <= i < j < |amounts| ==> amounts[i] != amounts[j]
    ensures amount !in amounts ==> Lookup(table, IntToString(amount), default) == default
    ensures forall i :: 0 <= i < |amounts| && amounts[i] == amount ==>
      Lookup(table, IntToString(amount), default) == table[i].1
    decreases |table|
  {
    if table != [] {
      IntToStringInjective(amount, amounts[0]);
      if amounts[0] != amount {
        LookupAmount(table[1..], amounts[1..], amount, default);
        assert forall i :: 1 <= i < |amounts| ==> amounts[1..][i - 1] == amounts[i];
      }
    }
  }

  datatype LabeledPrice = LabeledPrice(caption: string, amount: int)

  /** The arguments of `send_invoice`. */
  datatype Invoice = Invoice(
    chatId: int,
    title: string,
    description: string,
    payload: string,
    currency: string,
    prices: seq<LabeledPrice>)

  /** The payload that tags a stars donation with its donor and amount. */
  function DonationPayload(userId: int, amount: int): (p: string)
    ensures "stars-donation-" <= p
    ensures var n := IntToString(amount); |p| > |n| && p[|p| - |n| - 1..] == "-" + n
  {
    var head, n := "stars-donation-" + IntToString(userId), IntToString(amount);
    assert (head + "-" + n)[|head + "-" + n| - |n| - 1..] == "-" + n;
    head + "-" + n
  }

  /** Different donors or different amounts never share a payload: the payload identifies the donation. */
  lemma DonationPayloadIdentifies(userId1: int, amount1: nat, userId2: int, amount2: nat)
    ensures DonationPayload(userId1, amount1) == DonationPayload(userId2, amount2) ==>
      userId1 == userId2 && amount1 == amount2
  {
    if DonationPayload(userId1, amount1) == DonationPayload(userId2, amount2) {
      var head1, head2 := "stars-donation-" + IntToString(userId1), "stars-donation-" + IntToString(userId2);
      var n1, n2 := NatToString(amount1), NatToString(amount2);
      assert !IsDigit('-');
      assert '-' !in n1 && '-' !in n2;
      assert DonationPayload(userId1, amount1) == head1 + ['-'] + n1;
      assert DonationPayload(userId2, amount2) == head2 + ['-'] + n2;
      LastFieldUnique(head1, n1, head2, n2, '-');
      ParseNatToString(amount1);
      ParseNatToString(amount2);
      assert IntToString(userId1) == head1[15..];
      assert IntToString(userId2) == head2[15..];
      IntToStringInjective(userId1, userId2);
    }
  }

  /** The invoice for a donation of `amount` stars by user `userId`, sent to that user's chat. */
  function StarsInvoice(userId: int, amount: int): (inv: Invoice)
    ensures inv.chatId == userId && inv.currency == "XTR"
    ensures |inv.prices| == 1 && inv.prices[0].amount == amount
    ensures inv.payload == DonationPayload(userId, amount)
  {
    Invoice(
      userId,
      TierName(amount) + " Tier Donation",
      "Thank you for donating " + IntToString(amount) + " Stars to support us!",
      DonationPayload(userId, amount),
      "XTR",
      [LabeledPrice(IntToString(amount) + " Telegram Stars", amount)])
  }

  /** The screens a callback query can switch the message to. */
  datatype Screen = MainMenu | CryptoMenu | StarsMenu

  /** A callback-query answer: a short text, as a toast or as an alert. */
  datatype Notice = Notice(text: string, showAlert: bool)

  /** What `menu_handler` does with one callback query. */
  datatype Reply =
    | Edit(screen: Screen)
    | SendInvoice(invoice: Invoice, notice: Notice)
    | Answer(notice: Notice)
    | NoReply

  /** The alert shown when handling a callback query fails. */
  const ErrorNotice: Notice := Notice("An error occurred.", true)

  /**
   * `menu_handler` on callback data `data` from user `userId`. The three
   * screen names are tested first, by equality; only other data starting
   * with "stars:" asks for an invoice, for the amount in the field after
   * the first colon. When that field is not a number, `int()` fails and the
   * error alert is answered instead. Anything else is ignored.
   */
  function MenuHandler(data: string, userId: int): (r: Reply)
    ensures data == "main_menu" ==> r == Edit(MainMenu)
    ensures data == "crypto" ==> r == Edit(CryptoMenu)
    ensures data == "stars" ==> r == Edit(StarsMenu)
    ensures r.SendInvoice? || r.Answer? <==> "stars:" <= data
    ensures r.NoReply? <==> data != "main_menu" && data != "crypto" && data != "stars" && !("stars:" <= data)
    ensures r.Answer? ==> r.notice == ErrorNotice
    ensures r.SendInvoice? ==> r.invoice.chatId == userId && r.invoice.currency == "XTR" && |r.invoice.prices| == 1
  {
    if data == "main_menu" then assert data[0] == 'm'; Edit(MainMenu)
    else if data == "crypto" then assert data[0] == 'c'; Edit(CryptoMenu)
    else if data == "stars" then Edit(StarsMenu)
    else if "stars:" <= data then
      assert data[5] == ':';
      match ParseNat(Split(data, ':')[1])
      case None => Answer(ErrorNotice)
      case Some(amount) =>
        SendInvoice(StarsInvoice(userId, amount), Notice("Preparing " + IntToString(amount) + " Stars invoice...", false))
    else NoReply
  }

  /**
   * The invoice for a stars amount charges exactly that many stars in XTR
   * to the donor's own chat, under a payload that names both, and is titled
   * after the amount's tier.
   */
  lemma StarsInvoiceFields(userId: int, amount: nat)
    ensures var inv := StarsInvoice(userId, amount);
      && inv.chatId == userId
      && inv.currency == "XTR"
      && inv.payload == "stars-donation-" + IntToString(userId) + "-" + NatToString(amount)
      && inv.prices == [LabeledPrice(NatToString(amount) + " Telegram Stars", amount)]
      && inv.description == "Thank you for donating " + NatToString(amount) + " Stars to support us!"
      && inv.title == TierName(amount) + " Tier Donation"
  {
    assert IntToString(amount) == NatToString(amount);
  }

  /** The invoice title names the amount's tier, or "Donation" for an amount with no tier. */
  lemma StarsInvoiceTitle(userId: int, amount: int)
    ensures amount !in TierAmounts ==> StarsInvoice(userId, amount).title == "Donation Tier Donation"
    ensures forall i :: 0 <= i < |TierAmounts| && TierAmounts[i] == amount ==>
      StarsInvoice(userId, amount).title == StarsTiers[i].1 + " Tier Donation"
  {
    var title := StarsInvoice(userId, amount).title;
    assert title == TierName(amount) + " Tier Donation";
    TierNameExact(amount);
  }

  /** The invoice a valid "stars:N" callback sends, with its toast. */
  function InvoiceReply(userId: int, amount: nat): (r: Reply)
    ensures r.SendInvoice? && r.invoice == StarsInvoice(userId, amount)
    ensures !r.notice.showAlert
  {
    SendInvoice(StarsInvoice(userId, amount), Notice("Preparing " + IntToString(amount) + " Stars invoice...", false))
  }

  /** In "stars:" + field + rest, where rest is empty or starts a further field, the amount field is `field`. */
  lemma AmountField(field: string, rest: string)
    requires ':' !in field
    requires rest == [] || rest[0] == ':'
    ensures |Split("stars:" + field + rest, ':')| >= 2
    ensures Split("stars:" + field + rest, ':')[1] == field
  {
    assert "stars:" + field + rest == "stars" + [':'] + field + rest;
    SecondField("stars", field, rest, ':');
  }

  /**
   * The callback `f"stars:{amount}"` parses back to the same amount, so it
   * requests the invoice for exactly that amount; text after a further
   * colon does not change it.
   */
  lemma StarsCallbackRoundTrip(amount: nat, rest: string, userId: int)
    requires rest == [] || rest[0] == ':'
    ensures MenuHandler("stars:" + NatToString(amount) + rest, userId) == InvoiceReply(userId, amount)
  {
    AmountField(NatToString(amount), rest);
    ParseNatToString(amount);
  }

  /** A non-numeric amount after "stars:" makes `int()` fail: the error alert is answered and no invoice is sent. */
  lemma NonNumericAmountFails(field: string, rest: string, userId: int)
    requires ':' !in field
    requires rest == [] || rest[0] == ':'
    requires field == [] || !AllDigits(field)
    ensures MenuHandler("stars:" + field + rest, userId) == Answer(ErrorNotice)
  {
    AmountField(field, rest);
  }

  /**
   * Every button of the stars keyboard is routed as intended: tier button
   * `i` requests the invoice for that tier's amount, titled with that
   * tier's label, and Back returns to the main menu.
   */
  lemma StarsKeyboardRoutes(userId: int)
    ensures |TierButtons(StarsTiers)| == |TierAmounts|
    ensures forall i :: 0 <= i < |TierAmounts| ==>
      MenuHandler(TierButtons(StarsTiers)[i].data, userId) == InvoiceReply(userId, TierAmounts[i])
    ensures forall i :: 0 <= i < |TierAmounts| ==>
      StarsInvoice(userId, TierAmounts[i]).title == StarsTiers[i].1 + " Tier Donation"
    ensures MenuHandler(BackButton.data, userId) == Edit(MainMenu)
  {
    TierKeysSpellAmounts();
    forall i | 0 <= i < |TierAmounts|
      ensures MenuHandler(TierButtons(StarsTiers)[i].data, userId) == InvoiceReply(userId, TierAmounts[i])
      ensures StarsInvoice(userId, TierAmounts[i]).title == StarsTiers[i].1 + " Tier Donation"
    {
      assert "stars:" + NatToString(TierAmounts[i]) + [] == TierButtons(StarsTiers)[i].data;
      StarsCallbackRoundTrip(TierAmounts[i], [], userId);
      TierNameExact(TierAmounts[i]);
    }
  }

  /** The fixed parts of the thank-you message, around the amount and the tier name. */
  const ThankYouLead: string := "\U{1F389} Thank you so much for your generous donation of **"
  const ThankYouMid: string := " Stars** ("
  const ThankYouTail: string := " Tier)! " + "Your support means the world to us. \U{2764}\U{FE0F}"

  /** The thank-you message for a stars payment: the amount and the tier name stand at known places in it. */
  function ThankYou(amount: int, tierName: string): (msg: string)
    ensures var n := IntToString(amount);
      && |msg| == |ThankYouLead| + |n| + |ThankYouMid| + |tierName| + |ThankYouTail|
      && msg[..|ThankYouLead|] == ThankYouLead
      && msg[|ThankYouLead|..|ThankYouLead| + |n|] == n
      && msg[|ThankYouLead| + |n| + |ThankYouMid|..|msg| - |ThankYouTail|] == tierName
      && msg[|msg| - |ThankYouTail|..] == ThankYouTail
  {
    ThankYouLead + IntToString(amount) + ThankYouMid + tierName + ThankYouTail
  }

  /**
   * `successful_payment_handler`: a payment is acknowledged, with the tier
   * of its total, only when its currency is "XTR".
   */
  function PaymentHandler(currency: string, totalAmount: int): (r: Option<string>)
    ensures r.Some? <==> currency == "XTR"
  {
    if currency == "XTR" then Some(ThankYou(totalAmount, TierName(totalAmount))) else None
  }

  /** A stars payment's thank-you names the paid amount's tier, or "Donation" for an amount with no tier. */
  lemma PaymentNamesTier(amount: int)
    ensures amount !in TierAmounts ==> PaymentHandler("XTR", amount) == Some(ThankYou(amount, "Donation"))
    ensures forall i :: 0 <= i < |TierAmounts| && TierAmounts[i] == amount ==>
      PaymentHandler("XTR", amount) == Some(ThankYou(amount, StarsTiers[i].1))
  {
    TierNameExact(amount);
  }

  /** The crypto screen's keyboard holds only Back, and Back returns to the main menu. */
  lemma CryptoKeyboardRoutes(userId: int)
    ensures Flatten(CryptoKeyboard) == [BackButton]
    ensures MenuHandler(CryptoKeyboard[0][0].data, userId) == Edit(MainMenu)
  {
    assert Flatten(CryptoKeyboard) == [BackButton] + Flatten([]);
  }

  /** Paying a stars invoice in full is acknowledged, naming the tier its title names. */
  lemma PaidInvoiceAcknowledged(userId: int, amount: nat)
    ensures var inv := StarsInvoice(userId, amount);
      PaymentHandler(inv.currency, inv.prices[0].amount) == Some(ThankYou(amount, TierName(amount)))
      && inv.title == TierName(amount) + " Tier Donation"
  {
  }
}
