/** Display formatting of counts (vibe-coding-landing/src/lib/formatters.ts):
    the K/M abbreviation of `formatNumber`, pluralisation, and the messages
    built from them. Numbers are integers here. */
module Formatters {
  import opened Types
  import opened Strings

  predicate EndsWith(s: string, suffix: string) {
    |suffix| <= |s| && s[|s| - |suffix|..] == suffix
  }

  /** `(num / divisor).toFixed(1)` for a positive quotient, rounding the exact
      quotient to one decimal, halves upward. */
  function OneDecimal(num: nat, divisor: nat): (r: string)
    requires divisor > 0
  {
    var tenths := (20 * num + divisor) / (2 * divisor);
    NatToString(tenths / 10) + "." + [DigitChar(tenths % 10)]
  }

  /** `formatNumber`: millions get the suffix "M", thousands "K", and smaller
      numbers are written out in full. */
  function FormatNumber(num: int): (r: string)
    ensures |r| > 0
  {
    if num >= 1000000 then OneDecimal(num, 1000000) + "M"
    else if num >= 1000 then OneDecimal(num, 1000) + "K"
    else IntToString(num)
  }

  /** Below 1000 the number is written exactly, in decimal digits with a
      leading '-' when negative; from 1000 on it ends in "K", from one million
      on in "M". */
  lemma FormatNumberShape(num: int)
    ensures 0 <= num < 1000 ==> (forall k :: 0 <= k < |FormatNumber(num)| ==> IsDigit(FormatNumber(num)[k]))
                                && ParseDigits(FormatNumber(num)) == num
    ensures num < 0 ==> FormatNumber(num)[0] == '-'
                        && (forall k :: 1 <= k < |FormatNumber(num)| ==> IsDigit(FormatNumber(num)[k]))
                        && ParseDigits(FormatNumber(num)[1..]) == -num
    ensures 1000 <= num < 1000000 ==> EndsWith(FormatNumber(num), "K")
    ensures 1000000 <= num ==> EndsWith(FormatNumber(num), "M")
    ensures num < 1000 ==> !EndsWith(FormatNumber(num), "K") && !EndsWith(FormatNumber(num), "M")
  {
    if 0 <= num < 1000 {
      NatToStringRoundTrip(num);
    } else if num < 0 {
      var r := FormatNumber(num);
      assert r[1..] == NatToString(-num);
      NatToStringRoundTrip(-num);
    }
  }

  /** The plural form: the given one if it is a non-empty string, else singular + "s". */
  function PluralForm(singular: string, plural: Option<string>): string {
    if plural.Some? && plural.value != "" then plural.value else singular + "s"
  }

  /** `pluralize`: the singular exactly for a count of one. */
  function Pluralize(count: int, singular: string, plural: Option<string>): (r: string)
    ensures count == 1 ==> r == singular
    ensures count != 1 ==> r == PluralForm(singular, plural)
  {
    var pluralForm := PluralForm(singular, plural);
    if count == 1 then singular else pluralForm
  }

  /** `formatCount`: the formatted number, a space, and the word. */
  function FormatCount(count: int, singular: string, plural: Option<string>): (r: string)
    ensures EndsWith(r, " " + Pluralize(count, singular, plural))
    ensures |FormatNumber(count)| < |r| && r[..|FormatNumber(count)|] == FormatNumber(count)
    ensures r == FormatNumber(count) + " " + Pluralize(count, singular, plural)
  {
    var pluralForm := PluralForm(singular, plural);
    FormatNumber(count) + " " + (if count == 1 then singular else pluralForm)
  }

  /** `formatSubscriberCount` */
  function FormatSubscriberCount(count: int): (r: string)
    ensures count == 1 ==> EndsWith(r, " subscriber")
    ensures count != 1 ==> EndsWith(r, " subscribers")
  {
    var word := if count == 1 then "subscriber" else "subscribers";
    assert Pluralize(count, "subscriber", None) == word;
    SpacedWordEnds(FormatNumber(count), word);
    FormatCount(count, "subscriber", None)
  }

  /** A text ending in a space and a word ends with that word behind a space. */
  lemma SpacedWordEnds(front: string, word: string)
    ensures EndsWith(front + " " + word, " " + word)
  {
    assert (front + " " + word)[|front|..] == " " + word;
  }

  const MessagePrefix := "Join "
  const MessageSuffix := " ambitious builders who've already signed up"

  /** `formatSubscriberMessage`: the formatted count inside a fixed sentence. */
  function FormatSubscriberMessage(count: int): (r: string)
    ensures |r| == |MessagePrefix| + |FormatNumber(count)| + |MessageSuffix|
    ensures r[..|MessagePrefix|] == MessagePrefix
    ensures r[|MessagePrefix|..|MessagePrefix| + |FormatNumber(count)|] == FormatNumber(count)
    ensures EndsWith(r, MessageSuffix)
  {
    var formattedCount := FormatNumber(count);
    MessagePrefix + formattedCount + MessageSuffix
  }

  /** The count can be read back from the message: two different counts
      below 1000 never give the same message. */
  lemma {:induction false} MessageDeterminesSmallCount(a: int, b: int)
    requires 0 <= a < 1000 && 0 <= b < 1000
    requires FormatSubscriberMessage(a) == FormatSubscriberMessage(b)
    ensures a == b
  {
    var ra := FormatSubscriberMessage(a);
    var fa := FormatNumber(a);
    var fb := FormatNumber(b);
    assert |fa| == |fb|;
    assert fa == ra[|MessagePrefix|..|MessagePrefix| + |fa|] == fb;
    FormatNumberShape(a);
    FormatNumberShape(b);
  }

  /** Worked values: "1.5K" and "2.0M"; and a count just under one million
      rounds up to "1000.0K" rather than switching to the "M" suffix. */
  lemma FormatNumberExamples()
    ensures FormatNumber(1500) == "1.5K"
    ensures FormatNumber(2000000) == "2.0M"
    ensures FormatNumber(999999) == "1000.0K"
    ensures FormatNumber(42) == "42"
  {
    ThousandsExample();
    MillionsExample();
    JustUnderMillionExample();
    assert NatToString(4) == "4";
  }

  lemma ThousandsExample()
    ensures FormatNumber(1500) == "1.5K"
  {
    Tenths(1500, 1000, 15);
    assert NatToString(1) == "1";
  }

  /** 1.15 rounds half up to "1.2" here; a double stores it just below 1.15. */
  lemma HundredthsFiveExample()
    ensures FormatNumber(1150) == "1.2K"
  {
    Tenths(1150, 1000, 12);
    assert NatToString(1) == "1";
  }

  lemma MillionsExample()
    ensures FormatNumber(2000000) == "2.0M"
  {
    Tenths(2000000, 1000000, 20);
    assert NatToString(2) == "2";
  }

  lemma JustUnderMillionExample()
    ensures FormatNumber(999999) == "1000.0K"
  {
    Tenths(999999, 1000, 10000);
    assert NatToString(1000) == "1000" by {
      assert NatToString(1) == "1";
      assert NatToString(10) == "1" + [DigitChar(0)];
      assert NatToString(100) == "10" + [DigitChar(0)];
    }
  }

  /** `OneDecimal` for a known number of tenths. */
  lemma Tenths(num: nat, divisor: nat, tenths: nat)
    requires divisor > 0 && tenths == (20 * num + divisor) / (2 * divisor)
    ensures OneDecimal(num, divisor) == NatToString(tenths / 10) + "." + [DigitChar(tenths % 10)]
  {
  }
}
