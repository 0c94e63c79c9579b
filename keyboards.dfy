/**
 * The inline keyboards the bot shows: the main menu, decoded from the
 * `MAIN_MENU_BUTTONS` table, the crypto screen's Back row, and the stars
 * menu built from the tier table. Buttons are laid out two per row.
 */
module Keyboards {
  import opened Wrappers
  import opened Text

  /** An inline button: it either opens a URL or sends callback data back to the bot. */
  datatype Button = UrlButton(text: string, url: string) | CallbackButton(text: string, data: string)

  /** A keyboard: rows of buttons, top to bottom. */
  type Layout = seq<seq<Button>>

  /** "« Back", which returns to the main menu. */
  const BackButton: Button := CallbackButton("\U{00AB} Back", "main_menu")

  /** The crypto screen's keyboard: one row holding the Back button. */
  const CryptoKeyboard: Layout := [[BackButton]]

  /** `[xs[i:i+2] for i in range(0, len(xs), 2)]`: consecutive pairs, the last row a single when the count is odd. */
  function Rows<T>(xs: seq<T>): (rows: seq<seq<T>>)
    ensures |rows| == (|xs| + 1) / 2
    ensures forall i :: 0 <= i < |rows| - 1 ==> |rows[i]| == 2
    ensures rows != [] ==> |rows[|rows| - 1]| == 2 - |xs| % 2
  {
    seq((|xs| + 1) / 2, i requires 0 <= i < (|xs| + 1) / 2 =>
      xs[2 * i .. if 2 * i + 2 <= |xs| then 2 * i + 2 else |xs|])
  }

  /** The buttons of a keyboard read row by row. */
  function Flatten<T>(rows: seq<seq<T>>): seq<T> {
    if rows == [] then [] else rows[0] + Flatten(rows[1..])
  }

  /** Past the first pair, the rows of a list are the rows of the list without that pair. */
  lemma RowsTail<T>(xs: seq<T>)
    requires |xs| > 2
    ensures Rows(xs)[0] == xs[..2]
    ensures Rows(xs)[1..] == Rows(xs[2..])
  {
    var rows, tail := Rows(xs), Rows(xs[2..]);
    assert |rows[1..]| == |tail|;
    forall k | 0 <= k < |tail|
      ensures rows[1..][k] == tail[k]
    {
      var hi := if 2 * k + 4 <= |xs| then 2 * k + 4 else |xs|;
      assert rows[1..][k] == rows[k + 1] == xs[2 * k + 2 .. hi];
      assert xs[2..][2 * k .. hi - 2] == xs[2 * k + 2 .. hi];
    }
  }

  /** Reading the rows back gives the original buttons in their original order. */
  lemma {:induction false} FlattenRows<T>(xs: seq<T>)
    ensures Flatten(Rows(xs)) == xs
    decreases |xs|
  {
    var rows := Rows(xs);
    if |xs| > 2 {
      RowsTail(xs);
      FlattenRows(xs[2..]);
      assert xs == xs[..2] + xs[2..];
    } else if |xs| > 0 {
      assert rows[0] == xs[0..|xs|] == xs;
      assert rows == [xs];
    }
  }

  /**
   * One `(text, data)` menu entry: data starting with "url:" makes a link,
   * "callback:" a callback button, both carrying the text after the first
   * colon; any other entry makes no button.
   */
  function DecodeEntry(text: string, data: string): (b: Option<Button>)
    ensures "url:" <= data ==> b == Some(UrlButton(text, data[4..]))
    ensures !("url:" <= data) && "callback:" <= data ==> b == Some(CallbackButton(text, data[9..]))
    ensures b.None? <==> !("url:" <= data) && !("callback:" <= data)
  {
    if "url:" <= data then
      SplitOnceAfterPrefix("url", ':', data[4..]);
      assert data == "url" + [':'] + data[4..];
      Some(UrlButton(text, SplitOnce(data, ':')[1]))
    else if "callback:" <= data then
      SplitOnceAfterPrefix("callback", ':', data[9..]);
      assert data == "callback" + [':'] + data[9..];
      Some(CallbackButton(text, SplitOnce(data, ':')[1]))
    else
      None
  }

  /** The buttons of a menu table, entry by entry, skipping the entries that make none. */
  function DecodeEntries(entries: seq<(string, string)>): (buttons: seq<Button>)
    ensures |buttons| <= |entries|
  {
    if entries == [] then []
    else match DecodeEntry(entries[0].0, entries[0].1)
      case Some(b) => [b] + DecodeEntries(entries[1..])
      case None => DecodeEntries(entries[1..])
  }

  /** Decoding keeps order: the buttons of two tables in sequence are the buttons of each, in sequence. */
  lemma {:induction false} DecodeEntriesAppend(a: seq<(string, string)>, b: seq<(string, string)>)
    ensures DecodeEntries(a + b) == DecodeEntries(a) + DecodeEntries(b)
    decreases |a|
  {
    if a == [] {
      assert a + b == b;
    } else {
      assert (a + b)[1..] == a[1..] + b;
      DecodeEntriesAppend(a[1..], b);
    }
  }

  /** Decoding one more entry appends that entry's button, if it makes one. */
  lemma DecodeEntriesSnoc(entries: seq<(string, string)>, i: nat)
    requires i < |entries|
    ensures DecodeEntries(entries[..i + 1]) ==
      DecodeEntries(entries[..i]) + match DecodeEntry(entries[i].0, entries[i].1)
        case Some(b) => [b]
        case None => []
  {
    DecodeEntriesAppend(entries[..i], [entries[i]]);
    assert entries[..i + 1] == entries[..i] + [entries[i]];
    DecodeEntriesSingle(entries[i]);
  }

  /** A one-entry table decodes to that entry's button, if it makes one. */
  lemma DecodeEntriesSingle(e: (string, string))
    ensures DecodeEntries([e]) == match DecodeEntry(e.0, e.1)
      case Some(b) => [b]
      case None => []
  {
    assert [e][1..] == [];
  }

  /** An entry with neither prefix is dropped without disturbing its neighbours. */
  lemma UnknownEntryDropped(a: seq<(string, string)>, e: (string, string), b: seq<(string, string)>)
    requires !("url:" <= e.1) && !("callback:" <= e.1)
    ensures DecodeEntries(a + [e] + b) == DecodeEntries(a) + DecodeEntries(b)
  {
    DecodeEntriesAppend(a + [e], b);
    DecodeEntriesAppend(a, [e]);
  }

  /** When every entry has a known prefix, button `i` is entry `i` decoded. */
  lemma {:induction false} DecodeEntriesAllKnown(entries: seq<(string, string)>)
    requires forall i :: 0 <= i < |entries| ==> "url:" <= entries[i].1 || "callback:" <= entries[i].1
    ensures |DecodeEntries(entries)| == |entries|
    ensures forall i :: 0 <= i < |entries| ==> Some(DecodeEntries(entries)[i]) == DecodeEntry(entries[i].0, entries[i].1)
    decreases |entries|
  {
    if entries != [] {
      DecodeEntriesAllKnown(entries[1..]);
      var b := DecodeEntry(entries[0].0, entries[0].1);
      assert b.Some?;
      assert DecodeEntries(entries) == [b.value] + DecodeEntries(entries[1..]);
      forall i | 1 <= i < |entries|
        ensures Some(DecodeEntries(entries)[i]) == DecodeEntry(entries[i].0, entries[i].1)
      {
        assert entries[1..][i - 1] == entries[i];
      }
    }
  }

  /**
   * `get_main_menu_keyboard`: decode the menu table entry by entry, then lay
   * the buttons out two per row.
   */
  method MainMenuKeyboard(entries: seq<(string, string)>) returns (kb: Layout)
    ensures kb == Rows(DecodeEntries(entries))
    ensures Flatten(kb) == DecodeEntries(entries)
  {
    var buttons: seq<Button> := [];
    for i := 0 to |entries|
      invariant buttons == DecodeEntries(entries[..i])
    {
      var (text, data) := entries[i];
      DecodeEntriesSnoc(entries, i);
      if "url:" <= data {
        assert data[3] == ':';
        buttons := buttons + [UrlButton(text, SplitOnce(data, ':')[1])];
      } else if "callback:" <= data {
        assert data[8] == ':';
        buttons := buttons + [CallbackButton(text, SplitOnce(data, ':')[1])];
      }
    }
    assert entries[..|entries|] == entries;
    kb := Rows(buttons);
    FlattenRows(buttons);
  }

  /** The button for one tier: labelled "{amount} {tier}", sending "stars:{amount}". */
  function TierButton(amount: string, tier: string): (b: Button)
    ensures b.CallbackButton?
    ensures |b.data| == 6 + |amount| && b.data[..6] == "stars:" && b.data[6..] == amount
    ensures |b.text| == |amount| + 1 + |tier| && b.text[..|amount|] == amount && b.text[|amount|] == ' '
    ensures b.text[|amount| + 1..] == tier
  {
    CallbackButton(amount + " " + tier, "stars:" + amount)
  }

  /** One tier button per table entry, in table order. */
  function TierButtons(tiers: seq<(string, string)>): (buttons: seq<Button>)
    ensures |buttons| == |tiers|
    ensures forall i :: 0 <= i < |tiers| ==> buttons[i].CallbackButton? && buttons[i].data == "stars:" + tiers[i].0
  {
    seq(|tiers|, i requires 0 <= i < |tiers| => TierButton(tiers[i].0, tiers[i].1))
  }

  /**
   * `get_stars_menu_keyboard`: one button per tier in table order, two per
   * row, then a final row holding only the Back button.
   */
  method StarsKeyboard(tiers: seq<(string, string)>) returns (kb: Layout)
    ensures |kb| == (|tiers| + 1) / 2 + 1
    ensures kb[..|kb| - 1] == Rows(TierButtons(tiers))
    ensures kb[|kb| - 1] == [BackButton]
    ensures Flatten(kb) == TierButtons(tiers) + [BackButton]
  {
    var buttons: seq<Button> := [];
    for i := 0 to |tiers|
      invariant |buttons| == i
      invariant forall j :: 0 <= j < i ==> buttons[j] == TierButton(tiers[j].0, tiers[j].1)
    {
      var (amount, tier) := tiers[i];
      var caption := amount + " " + tier;
      var callbackData := "stars:" + amount;
      buttons := buttons + [CallbackButton(caption, callbackData)];
    }
    assert buttons == TierButtons(tiers);
    var layout := Rows(buttons);
    kb := layout + [[BackButton]];
    assert kb[..|kb| - 1] == layout;
    FlattenRows(buttons);
    FlattenAppend(layout, [[BackButton]]);
  }

  /** The buttons of two stacked keyboards are those of each, top one first. */
  lemma {:induction false} FlattenAppend<T>(a: seq<seq<T>>, b: seq<seq<T>>)
    ensures Flatten(a + b) == Flatten(a) + Flatten(b)
    decreases |a|
  {
    if a == [] {
      assert a + b == b;
    } else {
      assert (a + b)[1..] == a[1..] + b;
      FlattenAppend(a[1..], b);
    }
  }
}
