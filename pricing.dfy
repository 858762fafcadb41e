/**
 * The pricing engine: table lookups that turn a line item into an amount of
 * money, and the receipt label of a line item. Both are total: a name missing
 * from a table falls back to a fixed price, or adds nothing.
 *
 * Money is in integer cents; every price in the tables is a multiple of 25
 * cents, so nothing is lost.
 */
module Pricing {
  import opened Util
  import opened OrderTypes

  // ---------------------------------------------------------------------------
  // Price tables (cents)
  // ---------------------------------------------------------------------------

  /** `[small, large]` per drink. */
  const DrinkPrices: map<string, (int, int)> := map[
    "americano" := (300, 400),
    "latte" := (400, 500),
    "cold_brew" := (400, 500),
    "mocha" := (450, 550),
    "frappuccino" := (550, 600),
    "black_tea" := (300, 375),
    "jasmine_tea" := (300, 375),
    "lemon_green_tea" := (350, 425),
    "matcha_latte" := (450, 525)]

  const MilkUpcharges: map<string, int> := map["whole" := 0, "skim" := 0, "oat" := 50, "almond" := 75]

  const AddOnPrices: map<string, int> := map[
    "extra_espresso_shot" := 150,
    "extra_matcha_shot" := 150,
    "caramel_syrup" := 50,
    "hazelnut_syrup" := 50]

  const PastryPrices: map<string, int> := map[
    "plain_croissant" := 350,
    "chocolate_croissant" := 400,
    "chocolate_chip_cookie" := 250,
    "banana_bread" := 300]

  /** Price pair of a drink missing from the table. */
  const FallbackDrinkPrices: (int, int) := (400, 500)
  /** Unit price of a pastry missing from the table. */
  const FallbackPastryPrice: int := 300

  /** Every catalog drink and pastry has a price, and a large drink never costs less than a small one. */
  lemma PriceTablesCoverCatalog()
    ensures forall n :: IsDrinkName(n) ==> n in DrinkPrices
    ensures forall n :: n in DrinkPrices ==> DrinkPrices[n].0 <= DrinkPrices[n].1
    ensures forall n :: IsPastryName(n) ==> n in PastryPrices
  {
  }

  // ---------------------------------------------------------------------------
  // Prices
  // ---------------------------------------------------------------------------

  /** Base price by size: "large" picks the large price, anything else (null included) the small one. */
  function BasePrice(name: string, size: Option<string>): (r: int)
    ensures r >= 300 && r % 25 == 0
  {
    var prices := if name in DrinkPrices then DrinkPrices[name] else FallbackDrinkPrices;
    if size == Some("large") then prices.1 else prices.0
  }

  function MilkUpcharge(milk: Option<string>): (r: int)
    ensures r >= 0 && r % 25 == 0
  {
    if Filled(milk) && milk.value in MilkUpcharges then MilkUpcharges[milk.value] else 0
  }

  function AddOnPrice(addOn: string): (r: int)
    ensures r >= 0 && r % 25 == 0
  {
    if addOn in AddOnPrices then AddOnPrices[addOn] else 0
  }

  /** Every add-on entry is charged, repeats included. */
  function AddOnTotal(addOns: seq<string>): (r: int)
    ensures 0 <= r <= 150 * |addOns|
    ensures r % 25 == 0
  {
    if |addOns| == 0 then 0
    else
      var prefix := AddOnTotal(addOns[..|addOns| - 1]);
      var last := AddOnPrice(addOns[|addOns| - 1]);
      SumOfQuarters(prefix, last);
      prefix + last
  }

  function DrinkPrice(d: DrinkItem): (r: int)
    ensures r >= 300 && r % 25 == 0
  {
    var base := BasePrice(d.name, d.size);
    var milk := MilkUpcharge(d.milk);
    var addOns := AddOnTotal(d.addOns);
    SumOfQuarters(base, milk);
    SumOfQuarters(base + milk, addOns);
    base + milk + addOns
  }

  function PastryUnitPrice(p: PastryItem): (r: int)
    ensures r > 0 && r % 25 == 0
  {
    if p.name in PastryPrices then PastryPrices[p.name] else FallbackPastryPrice
  }

  /** Price of a line item: never fails, and always a whole number of quarters. */
  function ItemPrice(item: OrderItem): (r: int)
    ensures r % 25 == 0
    ensures item.Drink? ==> r >= 300
    ensures item.Pastry? && item.pastry.quantity >= 0 ==> r >= 0
  {
    match item
    case Drink(d) => DrinkPrice(d)
    case Pastry(p) =>
      MultipleOfQuarter(PastryUnitPrice(p), p.quantity);
      PastryUnitPrice(p) * p.quantity
  }

  lemma SumOfQuarters(a: int, b: int)
    requires a % 25 == 0 && b % 25 == 0
    ensures (a + b) % 25 == 0
  {
    assert a + b == 25 * (a / 25 + b / 25);
  }

  lemma MultipleOfQuarter(unit: int, quantity: int)
    requires unit % 25 == 0
    ensures (unit * quantity) % 25 == 0
  {
    assert unit * quantity == 25 * ((unit / 25) * quantity);
  }

  /** The add-on charge is fixed by how often each priced token occurs. */
  lemma {:induction false} AddOnTotalByCounts(addOns: seq<string>)
    ensures AddOnTotal(addOns) ==
      150 * Count(addOns, "extra_espresso_shot") + 150 * Count(addOns, "extra_matcha_shot")
      + 50 * Count(addOns, "caramel_syrup") + 50 * Count(addOns, "hazelnut_syrup")
  {
    if |addOns| > 0 {
      AddOnTotalByCounts(addOns[..|addOns| - 1]);
    }
  }

  /** A drink's price does not depend on the order in which its add-ons are listed. */
  lemma AddOnOrderIrrelevant(d: DrinkItem, e: DrinkItem)
    requires d.name == e.name && d.size == e.size && d.milk == e.milk
    requires multiset(d.addOns) == multiset(e.addOns)
    ensures ItemPrice(Drink(d)) == ItemPrice(Drink(e))
  {
    AddOnTotalByCounts(d.addOns);
    AddOnTotalByCounts(e.addOns);
    SameCount(d.addOns, e.addOns, "extra_espresso_shot");
    SameCount(d.addOns, e.addOns, "extra_matcha_shot");
    SameCount(d.addOns, e.addOns, "caramel_syrup");
    SameCount(d.addOns, e.addOns, "hazelnut_syrup");
    assert AddOnTotal(d.addOns) == AddOnTotal(e.addOns);
  }

  lemma SameCount(a: seq<string>, b: seq<string>, t: string)
    requires multiset(a) == multiset(b)
    ensures Count(a, t) == Count(b, t)
  {
    CountIsMultiplicity(a, t);
    CountIsMultiplicity(b, t);
  }

  /** A drink costs its base price, its milk upcharge and each add-on entry, repeats charged again. */
  lemma {:induction false} DrinkPriceAdds(d: DrinkItem, extra: seq<string>)
    ensures ItemPrice(Drink(d.(addOns := d.addOns + extra)))
         == ItemPrice(Drink(d)) + AddOnTotal(extra)
  {
    if |extra| > 0 {
      var e := extra[..|extra| - 1];
      DrinkPriceAdds(d, e);
      assert (d.addOns + extra)[..|d.addOns + extra| - 1] == d.addOns + e;
    } else {
      assert d.addOns + extra == d.addOns;
    }
  }

  /** The fallbacks: an unknown drink is priced 4.00 / 5.00, an unknown pastry 3.00 each, and null size as small. */
  lemma Fallbacks(d: DrinkItem, p: PastryItem)
    ensures d.name !in DrinkPrices ==>
      ItemPrice(Drink(d)) == (if d.size == Some("large") then 500 else 400) + MilkUpcharge(d.milk) + AddOnTotal(d.addOns)
    ensures BasePrice(d.name, None) == BasePrice(d.name, Some("small"))
    ensures p.name !in PastryPrices ==> ItemPrice(Pastry(p)) == 300 * p.quantity
    ensures ItemPrice(Pastry(p)) == PastryUnitPrice(p) * p.quantity
  {
  }

  // ---------------------------------------------------------------------------
  // Labels
  // ---------------------------------------------------------------------------

  /** `\w` once underscores have become spaces: an ASCII letter or digit. */
  predicate IsWordChar(c: char) {
    'a' <= c <= 'z' || 'A' <= c <= 'Z' || '0' <= c <= '9'
  }

  function Upper(c: char): (u: char)
    ensures IsWordChar(u) == IsWordChar(c)
  {
    if 'a' <= c <= 'z' then (c as int - 32) as char else c
  }

  /**
   * Title-casing after a character that was (`afterWord`) or was not a word
   * character: `_` becomes a space, and a word character that starts a word
   * is upper-cased.
   */
  function TitleCaseFrom(s: string, afterWord: bool): (r: string)
    ensures |r| == |s|
    ensures '_' !in r
  {
    if |s| == 0 then ""
    else
      var c := if s[0] == '_' then ' ' else s[0];
      var startsWord := IsWordChar(c) && !afterWord;
      [if startsWord then Upper(c) else c] + TitleCaseFrom(s[1..], IsWordChar(c))
  }

  /** `s.replace(/_/g, " ").replace(/\b\w/g, (c) => c.toUpperCase())`. */
  function TitleCase(s: string): string {
    TitleCaseFrom(s, false)
  }

  /** Title-casing a title-cased string changes nothing. */
  lemma {:induction false} TitleCaseFromIdempotent(s: string, afterWord: bool)
    ensures TitleCaseFrom(TitleCaseFrom(s, afterWord), afterWord) == TitleCaseFrom(s, afterWord)
  {
    if |s| > 0 {
      var t := TitleCaseFrom(s, afterWord);
      var c := if s[0] == '_' then ' ' else s[0];
      assert t[1..] == TitleCaseFrom(s[1..], IsWordChar(c));
      TitleCaseFromIdempotent(s[1..], IsWordChar(c));
    }
  }

  lemma TitleCaseIdempotent(s: string)
    ensures TitleCase(TitleCase(s)) == TitleCase(s)
  {
    TitleCaseFromIdempotent(s, false);
  }

  /** The character at `i` once `_` has become a space. */
  function Spaced(s: string, i: nat): char
    requires i < |s|
  {
    if s[i] == '_' then ' ' else s[i]
  }

  /** Position `i` starts a word: a word character not preceded by one (`\b\w`). */
  predicate StartsWord(s: string, i: nat)
    requires i < |s|
  {
    IsWordChar(Spaced(s, i)) && (i == 0 || !IsWordChar(Spaced(s, i - 1)))
  }

  lemma {:induction false} TitleCaseFromAt(s: string, afterWord: bool, i: nat)
    requires i < |s|
    ensures TitleCaseFrom(s, afterWord)[i] ==
      if IsWordChar(Spaced(s, i)) && !(if i == 0 then afterWord else IsWordChar(Spaced(s, i - 1)))
      then Upper(Spaced(s, i)) else Spaced(s, i)
  {
    if i > 0 {
      TitleCaseFromAt(s[1..], IsWordChar(Spaced(s, 0)), i - 1);
      assert Spaced(s[1..], i - 1) == Spaced(s, i);
      if i > 1 {
        assert Spaced(s[1..], i - 2) == Spaced(s, i - 1);
      }
    }
  }

  /**
   * Title case keeps the length, turns every underscore into a space,
   * capitalises the first character of every word and leaves every other
   * character as it was.
   */
  lemma TitleCaseAt(s: string, i: nat)
    requires i < |s|
    ensures |TitleCase(s)| == |s|
    ensures TitleCase(s)[i] == if StartsWord(s, i) then Upper(Spaced(s, i)) else Spaced(s, i)
  {
    TitleCaseFromAt(s, false, i);
  }

  /** Receipt name of an add-on: a short label for catalog tokens, title case otherwise. */
  function AddOnLabel(addOn: string): string {
    match addOn
    case "extra_espresso_shot" => "Extra Shot"
    case "extra_matcha_shot" => "Extra Matcha"
    case "caramel_syrup" => "Caramel Syrup"
    case "hazelnut_syrup" => "Hazelnut Syrup"
    case _ => TitleCase(addOn)
  }

  /** One `"+ <label>"` part per add-on entry, in input order. */
  function AddOnParts(addOns: seq<string>): (parts: seq<string>)
    ensures |parts| == |addOns|
    ensures forall i :: 0 <= i < |addOns| ==> parts[i] == "+ " + AddOnLabel(addOns[i])
  {
    if |addOns| == 0 then [] else [ "+ " + AddOnLabel(addOns[0]) ] + AddOnParts(addOns[1..])
  }

  /** Shown when set; sweetness and ice level only when not "regular". */
  function PartIf(show: bool, part: string): seq<string> {
    if show then [part] else []
  }

  /** Size, then temperature, each when set. */
  function LeadingLabelParts(d: DrinkItem): (parts: seq<string>)
    ensures |parts| == LeadingParts(d)
    ensures Filled(d.size) ==> parts[0] == TitleCase(d.size.value)
    ensures Filled(d.temperature) ==> parts[|parts| - 1] == TitleCase(d.temperature.value)
  {
    PartIf(Filled(d.size), if Filled(d.size) then TitleCase(d.size.value) else "")
    + PartIf(Filled(d.temperature), if Filled(d.temperature) then TitleCase(d.temperature.value) else "")
  }

  /** Milk when set; sweetness and ice level when set and not "regular". */
  function ModifierLabelParts(d: DrinkItem): (parts: seq<string>)
    ensures |parts| == (if Filled(d.milk) then 1 else 0)
                     + (if Filled(d.sweetness) && d.sweetness.value != "regular" then 1 else 0)
                     + (if Filled(d.iceLevel) && d.iceLevel.value != "regular" then 1 else 0)
    ensures Filled(d.milk) ==> parts[0] == TitleCase(d.milk.value) + " Milk"
    ensures Filled(d.sweetness) && d.sweetness.value != "regular" ==>
              parts[if Filled(d.milk) then 1 else 0] == TitleCase(d.sweetness.value)
    ensures Filled(d.iceLevel) && d.iceLevel.value != "regular" ==> parts[|parts| - 1] == TitleCase(d.iceLevel.value)
  {
    PartIf(Filled(d.milk), if Filled(d.milk) then TitleCase(d.milk.value) + " Milk" else "")
    + PartIf(Filled(d.sweetness) && d.sweetness.value != "regular",
             if Filled(d.sweetness) then TitleCase(d.sweetness.value) else "")
    + PartIf(Filled(d.iceLevel) && d.iceLevel.value != "regular",
             if Filled(d.iceLevel) then TitleCase(d.iceLevel.value) else "")
  }

  /** The label parts of a drink, before they are joined. */
  function DrinkLabelParts(d: DrinkItem): seq<string> {
    LeadingLabelParts(d) + [TitleCase(d.name)] + ModifierLabelParts(d) + AddOnParts(d.addOns)
  }

  const LabelSeparator := " · "

  function ItemLabel(item: OrderItem): string {
    match item
    case Drink(d) => Join(DrinkLabelParts(d), LabelSeparator)
    case Pastry(p) =>
      if p.quantity > 1 then TitleCase(p.name) + " ×" + NatToString(p.quantity) else TitleCase(p.name)
  }

  /** Number of leading parts (size, temperature) before the drink name. */
  function LeadingParts(d: DrinkItem): nat {
    (if Filled(d.size) then 1 else 0) + (if Filled(d.temperature) then 1 else 0)
  }

  /**
   * The drink label lists size, then temperature, then the name, and ends with
   * one part per add-on in input order; there is one part per shown field.
   */
  lemma DrinkLabelLayout(d: DrinkItem)
    ensures var parts := DrinkLabelParts(d);
      && |parts| == LeadingParts(d) + 1
           + (if Filled(d.milk) then 1 else 0)
           + (if Filled(d.sweetness) && d.sweetness.value != "regular" then 1 else 0)
           + (if Filled(d.iceLevel) && d.iceLevel.value != "regular" then 1 else 0)
           + |d.addOns|
      && (Filled(d.size) ==> parts[0] == TitleCase(d.size.value))
      && (Filled(d.temperature) ==> parts[LeadingParts(d) - 1] == TitleCase(d.temperature.value))
      && parts[LeadingParts(d)] == TitleCase(d.name)
      && (Filled(d.milk) ==> parts[LeadingParts(d) + 1] == TitleCase(d.milk.value) + " Milk")
      && (Filled(d.sweetness) && d.sweetness.value != "regular" ==>
            parts[LeadingParts(d) + 1 + (if Filled(d.milk) then 1 else 0)] == TitleCase(d.sweetness.value))
      && (Filled(d.iceLevel) && d.iceLevel.value != "regular" ==>
            parts[|parts| - |d.addOns| - 1] == TitleCase(d.iceLevel.value))
      && forall i :: 0 <= i < |d.addOns| ==>
           parts[|parts| - |d.addOns| + i] == "+ " + AddOnLabel(d.addOns[i])
  {
    var lead := LeadingLabelParts(d);
    var mods := ModifierLabelParts(d);
    var adds := AddOnParts(d.addOns);
    var parts := lead + [TitleCase(d.name)] + mods + adds;
    assert DrinkLabelParts(d) == parts;
    LabelSections(lead, TitleCase(d.name), mods, adds);
    assert |lead| == LeadingParts(d);
    assert |parts| - |d.addOns| == |lead| + 1 + |mods|;
    assert Filled(d.iceLevel) && d.iceLevel.value != "regular" ==> parts[|lead| + |mods|] == mods[|mods| - 1];
  }

  /** Where each section of a four-section label lands once they are concatenated. */
  lemma LabelSections(lead: seq<string>, name: string, mods: seq<string>, adds: seq<string>)
    ensures var parts := lead + [name] + mods + adds;
      && |parts| == |lead| + 1 + |mods| + |adds|
      && (forall i :: 0 <= i < |lead| ==> parts[i] == lead[i])
      && parts[|lead|] == name
      && (forall i :: 0 <= i < |mods| ==> parts[|lead| + 1 + i] == mods[i])
      && (forall i :: 0 <= i < |adds| ==> parts[|lead| + 1 + |mods| + i] == adds[i])
  {
  }

  /** A non-regular ice level is shown even when the drink is hot. */
  lemma IceLevelShownOnHotDrink(d: DrinkItem)
    requires d.temperature == Some("hot") && Filled(d.iceLevel) && d.iceLevel.value != "regular"
    ensures TitleCase(d.iceLevel.value) in DrinkLabelParts(d)
  {
    var body := LeadingLabelParts(d) + [TitleCase(d.name)] + ModifierLabelParts(d);
    assert DrinkLabelParts(d) == body + AddOnParts(d.addOns);
    assert DrinkLabelParts(d)[|body| - 1] == TitleCase(d.iceLevel.value);
  }

  /**
   * A pastry label carries the quantity exactly when it is above one, and the
   * quantity can be read back from it.
   */
  lemma PastryLabelQuantity(p: PastryItem)
    ensures p.quantity <= 1 ==> ItemLabel(Pastry(p)) == TitleCase(p.name)
    ensures p.quantity > 1 ==> (
      var text := ItemLabel(Pastry(p));
      var digits := text[|p.name| + 2..];
      && text[..|p.name| + 2] == TitleCase(p.name) + " ×"
      && (forall i :: 0 <= i < |digits| ==> IsDigit(digits[i]))
      && ParseNat(digits) == p.quantity)
  {
    if p.quantity > 1 {
      var text := ItemLabel(Pastry(p));
      assert text[|p.name| + 2..] == NatToString(p.quantity);
      ParseNatToString(p.quantity);
    }
  }
}
