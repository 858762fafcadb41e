/**
 * The validation engine: menu membership, required fields, cross-field
 * business rules and safety caps. `ValidateOrderState` walks the items and
 * appends every problem it finds; only the order-size ceiling stops the walk.
 *
 * What each item gets wrong is described first as a list of `Problem`s
 * (`ItemProblems`), which the lemmas reason about; the customer-facing
 * `ValidationError` carries the problem's message and the item's index.
 */
module OrderRules {
  import opened Util
  import opened OrderTypes

  const IcedOnlyDrinks: seq<string> := ["cold_brew", "frappuccino"]
  const MilkDrinks: seq<string> := ["latte", "mocha", "matcha_latte"]
  const PureTeas: seq<string> := ["black_tea", "jasmine_tea", "lemon_green_tea"]

  const MaxEspressoShots: nat := 4
  const MaxSyrupPumps: nat := 6
  const MaxItemsPerOrder: nat := 15
  const MaxPastryQuantity: int := 10

  const EspressoShot := "extra_espresso_shot"
  const MatchaShot := "extra_matcha_shot"
  const Caramel := "caramel_syrup"
  const Hazelnut := "hazelnut_syrup"

  /** What can be wrong with an order or with one of its items. */
  datatype Problem =
    | TooManyItems
    | UnknownDrink
    | MissingSize
    | MissingTemperature
    | IcedOnly(drink: string)
    | MissingMilk
    | BadSweetness
    | BadIceLevel
    | IceOnHotDrink
    | InvalidAddOn(addOn: string)
    | EspressoOnTea(drink: string)
    | MatchaOffMatchaLatte
    | TooManyShots(shots: nat)
    | TooMuchCaramel(pumps: nat)
    | TooMuchHazelnut(pumps: nat)
    | UnknownPastry
    | QuantityTooLow
    | QuantityTooHigh

  /**
   * An error for the customer; no index means the error is about the whole
   * order. The error keeps the problem it reports, and its text is the
   * problem's message.
   */
  datatype ValidationError = ValidationError(problem: Problem, itemIndex: Option<nat>)
  {
    function Text(): string {
      Message(problem)
    }
  }

  function Message(p: Problem): string {
    match p
    case TooManyItems =>
      "That's a lot! We can only handle up to 15 items per order through voice ordering. "
      + "For larger orders, please visit us in-store."
    case UnknownDrink => "That drink isn't on our menu."
    case MissingSize => "We need a size — small (12oz) or large (16oz)."
    case MissingTemperature => "Hot or iced?"
    case IcedOnly(drink) =>
      (if drink == "cold_brew" then "Cold brew" else "Frappuccino") + " is iced only — we can't make that hot."
    case MissingMilk => "What kind of milk? Whole, skim, oat, or almond."
    case BadSweetness => "Sweetness must be no sugar, less sugar, regular, or extra sugar."
    case BadIceLevel => "Ice level must be no ice, less ice, regular, or extra ice."
    case IceOnHotDrink => "Ice level only applies to iced drinks."
    case InvalidAddOn(addOn) => "\"" + addOn + "\" isn't a valid add-on."
    case EspressoOnTea(drink) =>
      "We can't add espresso shots to " + Prettify(drink)
      + " — that's a tea! Maybe try a latte or americano instead?"
    case MatchaOffMatchaLatte => "Extra matcha shot is only for the matcha latte."
    case TooManyShots(shots) =>
      "We can add up to 4 extra espresso shots — " + NatToString(shots)
      + " is too many! That much caffeine isn't safe."
    case TooMuchCaramel(pumps) =>
      NatToString(pumps) + " pumps of caramel is a bit much — we cap it at 6 pumps."
    case TooMuchHazelnut(pumps) =>
      NatToString(pumps) + " pumps of hazelnut is a bit much — we cap it at 6 pumps."
    case UnknownPastry => "That pastry isn't on our menu."
    case QuantityTooLow => "Pastry quantity must be at least 1."
    case QuantityTooHigh => "We can do up to 10 of any pastry per order. For larger quantities, please call ahead!"
  }

  // ---------------------------------------------------------------------------
  // What is wrong with one item
  // ---------------------------------------------------------------------------

  function If(condition: bool, p: Problem): seq<Problem> {
    if condition then [p] else []
  }

  /** One problem per add-on entry outside the catalog, in list order. */
  function InvalidAddOnProblems(addOns: seq<string>): (r: seq<Problem>)
    ensures |r| <= |addOns|
  {
    if |addOns| == 0 then []
    else
      var last := addOns[|addOns| - 1];
      InvalidAddOnProblems(addOns[..|addOns| - 1]) + If(last !in AddOns, InvalidAddOn(last))
  }

  /** The required fields: size, temperature, iced-only drinks served hot, milk for milk drinks. */
  function RequiredFieldProblems(d: DrinkItem): seq<Problem> {
    If(!HasValueIn(d.size, Sizes), MissingSize)
    + If(!HasValueIn(d.temperature, Temperatures), MissingTemperature)
    + If(d.name in IcedOnlyDrinks && d.temperature == Some("hot"), IcedOnly(d.name))
    + If(d.name in MilkDrinks && !HasValueIn(d.milk, Milks), MissingMilk)
  }

  /** The optional modifiers, checked only when set, and ice on a hot drink. */
  function OptionalFieldProblems(d: DrinkItem): seq<Problem> {
    If(Filled(d.sweetness) && d.sweetness.value !in SweetnessLevels, BadSweetness)
    + If(Filled(d.iceLevel) && d.iceLevel.value !in IceLevels, BadIceLevel)
    + If(d.temperature == Some("hot") && Filled(d.iceLevel) && d.iceLevel.value != "regular", IceOnHotDrink)
  }

  /** Add-ons that do not go with the drink. */
  function PairingProblems(d: DrinkItem): seq<Problem> {
    If(EspressoShot in d.addOns && d.name in PureTeas, EspressoOnTea(d.name))
    + If(MatchaShot in d.addOns && d.name != "matcha_latte", MatchaOffMatchaLatte)
  }

  /** The safety caps on espresso shots and syrup pumps. */
  function CapProblems(d: DrinkItem): seq<Problem> {
    var shots := Count(d.addOns, EspressoShot);
    var caramel := Count(d.addOns, Caramel);
    var hazelnut := Count(d.addOns, Hazelnut);
    If(shots > MaxEspressoShots, TooManyShots(shots))
    + If(caramel > MaxSyrupPumps, TooMuchCaramel(caramel))
    + If(hazelnut > MaxSyrupPumps, TooMuchHazelnut(hazelnut))
  }

  /** The add-on checks, which run only when the list is not empty. */
  function AddOnProblems(d: DrinkItem): seq<Problem> {
    if |d.addOns| == 0 then []
    else InvalidAddOnProblems(d.addOns) + PairingProblems(d) + CapProblems(d)
  }

  /** An unknown drink gets one problem and no further checks. */
  function DrinkProblems(d: DrinkItem): seq<Problem> {
    if d.name !in AllDrinks then [UnknownDrink]
    else RequiredFieldProblems(d) + OptionalFieldProblems(d) + AddOnProblems(d)
  }

  function PastryProblems(p: PastryItem): seq<Problem> {
    if p.name !in Pastries then [UnknownPastry]
    else if p.quantity < 1 then [QuantityTooLow]
    else if p.quantity > MaxPastryQuantity then [QuantityTooHigh]
    else []
  }

  function ItemProblems(item: OrderItem): seq<Problem> {
    match item
    case Drink(d) => DrinkProblems(d)
    case Pastry(p) => PastryProblems(p)
  }

  // ---------------------------------------------------------------------------
  // The error list
  // ---------------------------------------------------------------------------

  /** The problems of the item at `index`, as customer-facing errors. */
  function Report(problems: seq<Problem>, index: nat): (errors: seq<ValidationError>)
    ensures |errors| == |problems|
    ensures forall i :: 0 <= i < |errors| ==> errors[i].itemIndex == Some(index)
    ensures forall i {:trigger errors[i]} :: 0 <= i < |errors| ==> errors[i] == ValidationError(problems[i], Some(index))
  {
    if |problems| == 0 then []
    else Report(problems[..|problems| - 1], index) + [ValidationError(problems[|problems| - 1], Some(index))]
  }

  /**
   * The errors of every item, item by item, given what is wrong with each
   * item (`ItemProblems` in the engine; the lemmas below hold for any).
   */
  function ItemErrors(items: seq<OrderItem>, problemsOf: OrderItem -> seq<Problem>): seq<ValidationError> {
    if |items| == 0 then []
    else ItemErrors(items[..|items| - 1], problemsOf) + Report(problemsOf(items[|items| - 1]), |items| - 1)
  }

  const OrderTooLarge := ValidationError(TooManyItems, None)

  function ValidationErrors(state: OrderState): seq<ValidationError> {
    if |state.items| == 0 then []
    else if |state.items| > MaxItemsPerOrder then [OrderTooLarge]
    else ItemErrors(state.items, ItemProblems)
  }

  // ---------------------------------------------------------------------------
  // The imperative walk
  // ---------------------------------------------------------------------------

  /**
   * Checks one item and appends its errors. Every error pushed while an item
   * is checked carries that item's index, so the checks below collect the
   * problems in push order and the index is attached once.
   */
  method CheckItem(errors: seq<ValidationError>, item: OrderItem, index: nat)
    returns (out: seq<ValidationError>)
    ensures out == errors + Report(ItemProblems(item), index)
  {
    var problems: seq<Problem>;
    match item {
      case Drink(d) => problems := CheckDrink(d);
      case Pastry(p) => problems := CheckPastry(p);
    }
    out := errors + Report(problems, index);
  }

  /** The drink checks; an unknown name ends the checks for that drink. */
  method CheckDrink(d: DrinkItem) returns (problems: seq<Problem>)
    ensures problems == DrinkProblems(d)
  {
    if d.name !in AllDrinks {
      return [UnknownDrink];
    }
    var required := CheckRequiredFields(d);
    var optional := CheckOptionalFields(d);
    var addOns := CheckAddOns(d);
    problems := required + optional + addOns;
  }

  method CheckRequiredFields(d: DrinkItem) returns (problems: seq<Problem>)
    ensures problems == RequiredFieldProblems(d)
  {
    problems := [];
    if !Filled(d.size) || d.size.value !in Sizes {
      problems := problems + [MissingSize];
    }
    if !Filled(d.temperature) || d.temperature.value !in Temperatures {
      problems := problems + [MissingTemperature];
    }
    if d.name in IcedOnlyDrinks && d.temperature == Some("hot") {
      problems := problems + [IcedOnly(d.name)];
    }
    if d.name in MilkDrinks && (!Filled(d.milk) || d.milk.value !in Milks) {
      problems := problems + [MissingMilk];
    }
  }

  method CheckOptionalFields(d: DrinkItem) returns (problems: seq<Problem>)
    ensures problems == OptionalFieldProblems(d)
  {
    problems := [];
    if Filled(d.sweetness) && d.sweetness.value !in SweetnessLevels {
      problems := problems + [BadSweetness];
    }
    if Filled(d.iceLevel) && d.iceLevel.value !in IceLevels {
      problems := problems + [BadIceLevel];
    }
    if d.temperature == Some("hot") && Filled(d.iceLevel) && d.iceLevel.value != "regular" {
      problems := problems + [IceOnHotDrink];
    }
  }

  /** The add-on checks, skipped when there are no add-ons. */
  method CheckAddOns(d: DrinkItem) returns (problems: seq<Problem>)
    ensures problems == AddOnProblems(d)
  {
    problems := [];
    if |d.addOns| == 0 {
      return;
    }
    for k := 0 to |d.addOns|
      invariant problems == InvalidAddOnProblems(d.addOns[..k])
    {
      assert d.addOns[..k + 1][..k] == d.addOns[..k];
      if d.addOns[k] !in AddOns {
        problems := problems + [InvalidAddOn(d.addOns[k])];
      }
    }
    assert d.addOns[..|d.addOns|] == d.addOns;
    var pairings := CheckPairings(d);
    var caps := CheckCaps(d);
    problems := problems + pairings + caps;
  }

  method CheckPairings(d: DrinkItem) returns (problems: seq<Problem>)
    ensures problems == PairingProblems(d)
  {
    problems := [];
    if EspressoShot in d.addOns && d.name in PureTeas {
      problems := problems + [EspressoOnTea(d.name)];
    }
    if MatchaShot in d.addOns && d.name != "matcha_latte" {
      problems := problems + [MatchaOffMatchaLatte];
    }
  }

  method CheckCaps(d: DrinkItem) returns (problems: seq<Problem>)
    ensures problems == CapProblems(d)
  {
    problems := [];
    var shots := Count(d.addOns, EspressoShot);
    if shots > MaxEspressoShots {
      problems := problems + [TooManyShots(shots)];
    }
    var caramel := Count(d.addOns, Caramel);
    var hazelnut := Count(d.addOns, Hazelnut);
    if caramel > MaxSyrupPumps {
      problems := problems + [TooMuchCaramel(caramel)];
    }
    if hazelnut > MaxSyrupPumps {
      problems := problems + [TooMuchHazelnut(hazelnut)];
    }
  }

  /** The pastry checks; an unknown name ends the checks for that pastry. */
  method CheckPastry(p: PastryItem) returns (problems: seq<Problem>)
    ensures problems == PastryProblems(p)
  {
    if p.name !in Pastries {
      return [UnknownPastry];
    }
    problems := [];
    if p.quantity == 0 || p.quantity < 1 {
      problems := problems + [QuantityTooLow];
    } else if p.quantity > MaxPastryQuantity {
      problems := problems + [QuantityTooHigh];
    }
  }

  lemma {:induction false} ReportConcat(a: seq<Problem>, b: seq<Problem>, index: nat)
    ensures Report(a + b, index) == Report(a, index) + Report(b, index)
  {
    if |b| > 0 {
      assert (a + b)[..|a + b| - 1] == a + b[..|b| - 1];
      ReportConcat(a, b[..|b| - 1], index);
    } else {
      assert a + b == a;
    }
  }

  /** The errors of an order: none for an empty order, one order-level error above the ceiling, else every item's. */
  method ValidateOrderState(state: OrderState) returns (errors: seq<ValidationError>)
    ensures errors == ValidationErrors(state)
  {
    errors := [];
    if |state.items| == 0 {
      return;
    }
    if |state.items| > MaxItemsPerOrder {
      errors := errors + [OrderTooLarge];
      return;
    }
    var index := 0;
    while index < |state.items|
      invariant 0 <= index <= |state.items|
      invariant errors == ItemErrors(state.items[..index], ItemProblems)
    {
      assert state.items[..index + 1][..index] == state.items[..index];
      errors := CheckItem(errors, state.items[index], index);
      index := index + 1;
    }
    assert state.items[..index] == state.items;
  }

  /** The required fields a drink still lacks, in the order size, temperature, milk. */
  method GetMissingFieldsForDrink(d: DrinkItem) returns (missing: seq<string>)
    ensures missing == [] || missing == ["size"] || missing == ["temperature"] || missing == ["milk"]
         || missing == ["size", "temperature"] || missing == ["size", "milk"]
         || missing == ["temperature", "milk"] || missing == ["size", "temperature", "milk"]
    ensures ("size" in missing) == !Filled(d.size)
    ensures ("temperature" in missing) == !Filled(d.temperature)
    ensures ("milk" in missing) == (d.name in MilkDrinks && !Filled(d.milk))
  {
    missing := [];
    if !Filled(d.size) {
      missing := missing + ["size"];
    }
    if !Filled(d.temperature) {
      missing := missing + ["temperature"];
    }
    if d.name in MilkDrinks && !Filled(d.milk) {
      missing := missing + ["milk"];
    }
  }

  // ---------------------------------------------------------------------------
  // What the error list says
  // ---------------------------------------------------------------------------

  /** One problem per entry outside the add-on catalog, naming that entry. */
  lemma {:induction false} InvalidAddOnProblemsShape(addOns: seq<string>)
    ensures forall i :: 0 <= i < |InvalidAddOnProblems(addOns)| ==>
              var p := InvalidAddOnProblems(addOns)[i];
              p.InvalidAddOn? && p.addOn in addOns && p.addOn !in AddOns
    ensures |InvalidAddOnProblems(addOns)| == 0 <==> forall a :: a in addOns ==> a in AddOns
  {
    if |addOns| > 0 {
      var n := |addOns| - 1;
      InvalidAddOnProblemsShape(addOns[..n]);
      assert forall a :: a in addOns <==> a in addOns[..n] || a == addOns[n];
    }
  }

  /** Every item error names an item of the order. */
  lemma {:induction false} ItemErrorsIndices(items: seq<OrderItem>, problemsOf: OrderItem -> seq<Problem>)
    ensures forall i :: 0 <= i < |ItemErrors(items, problemsOf)| ==>
              ItemErrors(items, problemsOf)[i].itemIndex.Some? && ItemErrors(items, problemsOf)[i].itemIndex.value < |items|
  {
    if |items| > 0 {
      var n := |items| - 1;
      ItemErrorsIndices(items[..n], problemsOf);
      var prefix := ItemErrors(items[..n], problemsOf);
      var last := Report(problemsOf(items[n]), n);
      forall i | 0 <= i < |ItemErrors(items, problemsOf)|
        ensures ItemErrors(items, problemsOf)[i].itemIndex.Some? && ItemErrors(items, problemsOf)[i].itemIndex.value < |items|
      {
        if i < |prefix| {
          assert ItemErrors(items, problemsOf)[i] == prefix[i];
        } else {
          assert ItemErrors(items, problemsOf)[i] == last[i - |prefix|];
        }
      }
    }
  }

  /** The order-level ceiling: nothing for an empty order, one unindexed error above 15 items, else only item errors. */
  lemma OrderLevelCap(state: OrderState)
    ensures |state.items| == 0 ==> ValidationErrors(state) == []
    ensures |state.items| > MaxItemsPerOrder ==>
              ValidationErrors(state) == [OrderTooLarge] && OrderTooLarge.itemIndex == None
    ensures |state.items| <= MaxItemsPerOrder ==>
              forall i :: 0 <= i < |ValidationErrors(state)| ==>
                ValidationErrors(state)[i].itemIndex.Some? && ValidationErrors(state)[i].itemIndex.value < |state.items|
  {
    ItemErrorsIndices(state.items, ItemProblems);
  }

  /** Errors come item by item: their indices never go down. */
  lemma {:induction false} ItemErrorsInItemOrder(items: seq<OrderItem>, problemsOf: OrderItem -> seq<Problem>)
    ensures forall i :: 0 <= i < |ItemErrors(items, problemsOf)| ==> ItemErrors(items, problemsOf)[i].itemIndex.Some?
    ensures forall i, j :: 0 <= i < j < |ItemErrors(items, problemsOf)| ==>
              ItemErrors(items, problemsOf)[i].itemIndex.value <= ItemErrors(items, problemsOf)[j].itemIndex.value
  {
    if |items| > 0 {
      var n := |items| - 1;
      ItemErrorsInItemOrder(items[..n], problemsOf);
      ItemErrorsIndices(items, problemsOf);
      ItemErrorsIndices(items[..n], problemsOf);
      var prefix := ItemErrors(items[..n], problemsOf);
      var last := Report(problemsOf(items[n]), n);
      assert ItemErrors(items, problemsOf) == prefix + last;
      forall i, j | 0 <= i < j < |ItemErrors(items, problemsOf)|
        ensures ItemErrors(items, problemsOf)[i].itemIndex.value <= ItemErrors(items, problemsOf)[j].itemIndex.value
      {
        if j >= |prefix| {
          assert ItemErrors(items, problemsOf)[j] == last[j - |prefix|];
          if i < |prefix| {
            assert ItemErrors(items, problemsOf)[i] == prefix[i];
          } else {
            assert ItemErrors(items, problemsOf)[i] == last[i - |prefix|];
          }
        }
      }
    }
  }

  /** The errors reported for the item at `k`, in order. */
  function ErrorsFor(errors: seq<ValidationError>, k: nat): (r: seq<ValidationError>)
    ensures |r| <= |errors|
    ensures forall i :: 0 <= i < |r| ==> r[i].itemIndex == Some(k) && r[i] in errors
  {
    if |errors| == 0 then []
    else
      var last := errors[|errors| - 1];
      ErrorsFor(errors[..|errors| - 1], k) + (if last.itemIndex == Some(k) then [last] else [])
  }

  lemma {:induction false} ErrorsForConcat(a: seq<ValidationError>, b: seq<ValidationError>, k: nat)
    ensures ErrorsFor(a + b, k) == ErrorsFor(a, k) + ErrorsFor(b, k)
  {
    if |b| > 0 {
      assert (a + b)[..|a + b| - 1] == a + b[..|b| - 1];
      ErrorsForConcat(a, b[..|b| - 1], k);
    } else {
      assert a + b == a;
    }
  }

  lemma {:induction false} ErrorsForReport(problems: seq<Problem>, index: nat, k: nat)
    ensures ErrorsFor(Report(problems, index), k) == if index == k then Report(problems, index) else []
  {
    if |problems| > 0 {
      ErrorsForReport(problems[..|problems| - 1], index, k);
    }
  }

  lemma {:induction false} ErrorsForAbsent(errors: seq<ValidationError>, k: nat)
    requires forall i :: 0 <= i < |errors| ==> errors[i].itemIndex != Some(k)
    ensures ErrorsFor(errors, k) == []
  {
    if |errors| > 0 {
      ErrorsForAbsent(errors[..|errors| - 1], k);
    }
  }

  /** Picking out the errors of item `k` gives exactly that item's problems, tagged with `k`. */
  lemma {:induction false} ItemErrorsPerItem(items: seq<OrderItem>, problemsOf: OrderItem -> seq<Problem>, k: nat)
    requires k < |items|
    ensures ErrorsFor(ItemErrors(items, problemsOf), k) == Report(problemsOf(items[k]), k)
  {
    var n := |items| - 1;
    var prefix := ItemErrors(items[..n], problemsOf);
    ErrorsForConcat(prefix, Report(problemsOf(items[n]), n), k);
    ErrorsForReport(problemsOf(items[n]), n, k);
    if k == n {
      ItemErrorsIndices(items[..n], problemsOf);
      ErrorsForAbsent(prefix, k);
    } else {
      ItemErrorsPerItem(items[..n], problemsOf, k);
    }
  }

  /** Within the ceiling, the errors of the item at `k` are exactly its problems. */
  lemma ValidationErrorsPerItem(state: OrderState, k: nat)
    requires k < |state.items| <= MaxItemsPerOrder
    ensures ErrorsFor(ValidationErrors(state), k) == Report(ItemProblems(state.items[k]), k)
  {
    ItemErrorsPerItem(state.items, ItemProblems, k);
  }

  /** Declaratively, a drink the rules accept. */
  predicate AcceptableDrink(d: DrinkItem) {
    && d.name in AllDrinks
    && HasValueIn(d.size, Sizes)
    && HasValueIn(d.temperature, Temperatures)
    && !(d.name in IcedOnlyDrinks && d.temperature == Some("hot"))
    && (d.name in MilkDrinks ==> HasValueIn(d.milk, Milks))
    && (Filled(d.sweetness) ==> d.sweetness.value in SweetnessLevels)
    && (Filled(d.iceLevel) ==> d.iceLevel.value in IceLevels)
    && (d.temperature == Some("hot") && Filled(d.iceLevel) ==> d.iceLevel.value == "regular")
    && (forall a :: a in d.addOns ==> a in AddOns)
    && !(EspressoShot in d.addOns && d.name in PureTeas)
    && !(MatchaShot in d.addOns && d.name != "matcha_latte")
    && Count(d.addOns, EspressoShot) <= MaxEspressoShots
    && Count(d.addOns, Caramel) <= MaxSyrupPumps
    && Count(d.addOns, Hazelnut) <= MaxSyrupPumps
  }

  predicate AcceptablePastry(p: PastryItem) {
    p.name in Pastries && 1 <= p.quantity <= MaxPastryQuantity
  }

  predicate AcceptableItem(item: OrderItem) {
    match item
    case Drink(d) => AcceptableDrink(d)
    case Pastry(p) => AcceptablePastry(p)
  }

  lemma DrinkProblemsNone(d: DrinkItem)
    ensures DrinkProblems(d) == [] <==> AcceptableDrink(d)
  {
    if d.name in AllDrinks {
      InvalidAddOnProblemsShape(d.addOns);
      assert DrinkProblems(d) == RequiredFieldProblems(d) + OptionalFieldProblems(d) + AddOnProblems(d);
      if |d.addOns| == 0 {
        assert Count(d.addOns, EspressoShot) == 0 && Count(d.addOns, Caramel) == 0 && Count(d.addOns, Hazelnut) == 0;
      }
    }
  }

  /** An item has no problems exactly when the rules accept it. */
  lemma ItemProblemsNone(item: OrderItem)
    ensures ItemProblems(item) == [] <==> AcceptableItem(item)
  {
    match item {
      case Drink(d) => DrinkProblemsNone(d);
      case Pastry(p) =>
    }
  }

  /** An order passes exactly when it is within the ceiling and every item is acceptable. */
  lemma NoErrorsIffAcceptable(state: OrderState)
    ensures ValidationErrors(state) == [] <==>
              |state.items| <= MaxItemsPerOrder && forall i :: 0 <= i < |state.items| ==> AcceptableItem(state.items[i])
  {
    if |state.items| <= MaxItemsPerOrder {
      ItemErrorsNone(state.items, ItemProblems);
      forall i | 0 <= i < |state.items| {
        ItemProblemsNone(state.items[i]);
      }
    }
  }

  /** No error at all exactly when no item has a problem. */
  lemma {:induction false} ItemErrorsNone(items: seq<OrderItem>, problemsOf: OrderItem -> seq<Problem>)
    ensures ItemErrors(items, problemsOf) == [] <==> forall i :: 0 <= i < |items| ==> problemsOf(items[i]) == []
  {
    if |items| > 0 {
      var n := |items| - 1;
      ItemErrorsNone(items[..n], problemsOf);
      assert forall i :: 0 <= i < n ==> items[..n][i] == items[i];
    }
  }

  // ---------------------------------------------------------------------------
  // Which check fires
  // ---------------------------------------------------------------------------

  /** An invalid add-on is reported once per entry, a valid one never. */
  lemma {:induction false} InvalidAddOnCounts(addOns: seq<string>, a: string)
    ensures Count(InvalidAddOnProblems(addOns), InvalidAddOn(a)) == if a in AddOns then 0 else Count(addOns, a)
  {
    if |addOns| > 0 {
      var n := |addOns| - 1;
      InvalidAddOnCounts(addOns[..n], a);
      var front := InvalidAddOnProblems(addOns[..n]);
      var tail := If(addOns[n] !in AddOns, InvalidAddOn(addOns[n]));
      assert InvalidAddOnProblems(addOns) == front + tail;
      CountConcat(front, tail, InvalidAddOn(a));
    }
  }

  lemma {:induction false} CountConcat<T>(a: seq<T>, b: seq<T>, x: T)
    ensures Count(a + b, x) == Count(a, x) + Count(b, x)
  {
    if |b| > 0 {
      var n := |b| - 1;
      assert (a + b)[..|a + b| - 1] == a + b[..n];
      CountConcat(a, b[..n], x);
    } else {
      assert a + b == a;
    }
  }

  /** An unknown drink gets the one name error and nothing else; a drink on the menu never gets it. */
  lemma UnknownDrinkOnly(d: DrinkItem)
    ensures d.name !in AllDrinks ==> DrinkProblems(d) == [UnknownDrink]
    ensures d.name in AllDrinks ==> UnknownDrink !in DrinkProblems(d)
  {
    if d.name in AllDrinks {
      DrinkProblemGroups(d, UnknownDrink);
    }
  }

  /** The problems reported by the required-field checks. */
  predicate RequiredKind(p: Problem) {
    p.MissingSize? || p.MissingTemperature? || p.IcedOnly? || p.MissingMilk?
  }

  /** The problems reported by the optional-field checks. */
  predicate OptionalKind(p: Problem) {
    p.BadSweetness? || p.BadIceLevel? || p.IceOnHotDrink?
  }

  /** The problems reported by the add-on checks. */
  predicate AddOnKind(p: Problem) {
    p.InvalidAddOn? || p.EspressoOnTea? || p.MatchaOffMatchaLatte?
    || p.TooManyShots? || p.TooMuchCaramel? || p.TooMuchHazelnut?
  }

  /** No problem outside the invalid add-on kind is reported for an invalid entry. */
  lemma InvalidAddOnKinds(addOns: seq<string>)
    ensures forall p :: p in InvalidAddOnProblems(addOns) ==> p.InvalidAddOn?
  {
    InvalidAddOnProblemsShape(addOns);
  }

  lemma RequiredFieldKinds(d: DrinkItem)
    ensures forall p :: p in RequiredFieldProblems(d) ==> RequiredKind(p)
  {
  }

  lemma OptionalFieldKinds(d: DrinkItem)
    ensures forall p :: p in OptionalFieldProblems(d) ==> OptionalKind(p)
  {
  }

  lemma AddOnProblemsKinds(d: DrinkItem)
    ensures forall p :: p in AddOnProblems(d) ==> AddOnKind(p)
  {
    InvalidAddOnKinds(d.addOns);
    if |d.addOns| > 0 {
      assert AddOnProblems(d) == InvalidAddOnProblems(d.addOns) + PairingProblems(d) + CapProblems(d);
    }
  }

  /** Three lists of disjoint kinds: a problem of one kind is in their concatenation exactly when it is in its own list. */
  lemma KindedMembership(req: seq<Problem>, opt: seq<Problem>, add: seq<Problem>, p: Problem)
    requires forall q :: q in req ==> RequiredKind(q)
    requires forall q :: q in opt ==> OptionalKind(q)
    requires forall q :: q in add ==> AddOnKind(q)
    ensures RequiredKind(p) ==> (p in req + opt + add <==> p in req)
    ensures OptionalKind(p) ==> (p in req + opt + add <==> p in opt)
    ensures AddOnKind(p) ==> (p in req + opt + add <==> p in add)
    ensures !RequiredKind(p) && !OptionalKind(p) && !AddOnKind(p) ==> p !in req + opt + add
  {
  }

  /** For a drink on the menu, a problem of each kind can come only from its own group of checks. */
  lemma DrinkProblemGroups(d: DrinkItem, p: Problem)
    requires d.name in AllDrinks
    ensures RequiredKind(p) ==> (p in DrinkProblems(d) <==> p in RequiredFieldProblems(d))
    ensures OptionalKind(p) ==> (p in DrinkProblems(d) <==> p in OptionalFieldProblems(d))
    ensures AddOnKind(p) ==> (p in DrinkProblems(d) <==> p in AddOnProblems(d))
    ensures !RequiredKind(p) && !OptionalKind(p) && !AddOnKind(p) ==> p !in DrinkProblems(d)
  {
    RequiredFieldKinds(d);
    OptionalFieldKinds(d);
    AddOnProblemsKinds(d);
    KindedMembership(RequiredFieldProblems(d), OptionalFieldProblems(d), AddOnProblems(d), p);
  }

  /** What the required-field checks report, rule by rule. */
  lemma RequiredFieldsListed(d: DrinkItem)
    ensures MissingSize in RequiredFieldProblems(d) <==> !HasValueIn(d.size, Sizes)
    ensures MissingTemperature in RequiredFieldProblems(d) <==> !HasValueIn(d.temperature, Temperatures)
    ensures IcedOnly(d.name) in RequiredFieldProblems(d) <==> d.name in IcedOnlyDrinks && d.temperature == Some("hot")
    ensures MissingMilk in RequiredFieldProblems(d) <==> d.name in MilkDrinks && !HasValueIn(d.milk, Milks)
  {
  }

  /** For a drink on the menu, each required-field check reports exactly when its rule is broken. */
  lemma RequiredFieldRules(d: DrinkItem)
    requires d.name in AllDrinks
    ensures MissingSize in DrinkProblems(d) <==> !HasValueIn(d.size, Sizes)
    ensures MissingTemperature in DrinkProblems(d) <==> !HasValueIn(d.temperature, Temperatures)
    ensures IcedOnly(d.name) in DrinkProblems(d) <==> d.name in IcedOnlyDrinks && d.temperature == Some("hot")
    ensures MissingMilk in DrinkProblems(d) <==> d.name in MilkDrinks && !HasValueIn(d.milk, Milks)
  {
    RequiredFieldsListed(d);
    DrinkProblemGroups(d, MissingSize);
    DrinkProblemGroups(d, MissingTemperature);
    DrinkProblemGroups(d, IcedOnly(d.name));
    DrinkProblemGroups(d, MissingMilk);
  }

  /** What the optional-field checks report, rule by rule. */
  lemma OptionalFieldsListed(d: DrinkItem)
    ensures BadSweetness in OptionalFieldProblems(d) <==> Filled(d.sweetness) && d.sweetness.value !in SweetnessLevels
    ensures BadIceLevel in OptionalFieldProblems(d) <==> Filled(d.iceLevel) && d.iceLevel.value !in IceLevels
    ensures IceOnHotDrink in OptionalFieldProblems(d) <==>
              d.temperature == Some("hot") && Filled(d.iceLevel) && d.iceLevel.value != "regular"
  {
  }

  /** For a drink on the menu, each optional-field check reports exactly when its rule is broken. */
  lemma OptionalFieldRules(d: DrinkItem)
    requires d.name in AllDrinks
    ensures BadSweetness in DrinkProblems(d) <==> Filled(d.sweetness) && d.sweetness.value !in SweetnessLevels
    ensures BadIceLevel in DrinkProblems(d) <==> Filled(d.iceLevel) && d.iceLevel.value !in IceLevels
    ensures IceOnHotDrink in DrinkProblems(d) <==>
              d.temperature == Some("hot") && Filled(d.iceLevel) && d.iceLevel.value != "regular"
  {
    OptionalFieldsListed(d);
    DrinkProblemGroups(d, BadSweetness);
    DrinkProblemGroups(d, BadIceLevel);
    DrinkProblemGroups(d, IceOnHotDrink);
  }

  /** The pairing and cap problems come from the pairing and cap checks alone. */
  lemma AddOnGroups(d: DrinkItem, p: Problem)
    requires |d.addOns| > 0
    requires !p.InvalidAddOn?
    ensures p in AddOnProblems(d) <==> p in PairingProblems(d) || p in CapProblems(d)
  {
    InvalidAddOnKinds(d.addOns);
    assert AddOnProblems(d) == InvalidAddOnProblems(d.addOns) + PairingProblems(d) + CapProblems(d);
  }

  /** An invalid add-on is reported exactly when it is listed, by the add-on checks. */
  lemma InvalidAddOnListed(d: DrinkItem, a: string)
    ensures InvalidAddOn(a) in AddOnProblems(d) <==> a in d.addOns && a !in AddOns
  {
    InvalidAddOnCounts(d.addOns, a);
    if |d.addOns| > 0 {
      var inv := InvalidAddOnProblems(d.addOns);
      var rest := PairingProblems(d) + CapProblems(d);
      assert AddOnProblems(d) == inv + rest;
      assert InvalidAddOn(a) !in rest;
    }
  }

  /** For a drink on the menu, an invalid add-on is reported exactly when it is listed. */
  lemma InvalidAddOnRule(d: DrinkItem, a: string)
    requires d.name in AllDrinks
    ensures InvalidAddOn(a) in DrinkProblems(d) <==> a in d.addOns && a !in AddOns
  {
    DrinkProblemGroups(d, InvalidAddOn(a));
    InvalidAddOnListed(d, a);
  }

  /** What the pairing checks report. */
  lemma PairingsListed(d: DrinkItem)
    ensures EspressoOnTea(d.name) in PairingProblems(d) <==> EspressoShot in d.addOns && d.name in PureTeas
    ensures MatchaOffMatchaLatte in PairingProblems(d) <==> MatchaShot in d.addOns && d.name != "matcha_latte"
  {
  }

  /** For a drink on the menu, the pairing checks report exactly when their rules are broken. */
  lemma PairingRules(d: DrinkItem)
    requires d.name in AllDrinks
    ensures EspressoOnTea(d.name) in DrinkProblems(d) <==> EspressoShot in d.addOns && d.name in PureTeas
    ensures MatchaOffMatchaLatte in DrinkProblems(d) <==> MatchaShot in d.addOns && d.name != "matcha_latte"
  {
    DrinkProblemGroups(d, EspressoOnTea(d.name));
    DrinkProblemGroups(d, MatchaOffMatchaLatte);
    if |d.addOns| > 0 {
      PairingsListed(d);
      AddOnGroups(d, EspressoOnTea(d.name));
      AddOnGroups(d, MatchaOffMatchaLatte);
    }
  }

  /** What the cap checks report, cap by cap, with the count they found. */
  lemma CapsListed(d: DrinkItem)
    ensures TooManyShots(Count(d.addOns, EspressoShot)) in CapProblems(d) <==> Count(d.addOns, EspressoShot) > MaxEspressoShots
    ensures TooMuchCaramel(Count(d.addOns, Caramel)) in CapProblems(d) <==> Count(d.addOns, Caramel) > MaxSyrupPumps
    ensures TooMuchHazelnut(Count(d.addOns, Hazelnut)) in CapProblems(d) <==> Count(d.addOns, Hazelnut) > MaxSyrupPumps
  {
  }

  /**
   * For a drink on the menu, a cap problem is reported exactly when the cap
   * checks list it (an empty add-on list is not checked).
   */
  lemma CapReported(d: DrinkItem, p: Problem)
    requires d.name in AllDrinks
    requires p.TooManyShots? || p.TooMuchCaramel? || p.TooMuchHazelnut?
    ensures p in DrinkProblems(d) <==> |d.addOns| > 0 && p in CapProblems(d)
  {
    DrinkProblemGroups(d, p);
    if |d.addOns| > 0 {
      AddOnGroups(d, p);
      assert p !in PairingProblems(d);
    }
  }

  /**
   * For a drink on the menu, each cap is reported, with the count it found,
   * exactly when it is exceeded.
   */
  lemma CapRules(d: DrinkItem)
    requires d.name in AllDrinks
    ensures TooManyShots(Count(d.addOns, EspressoShot)) in DrinkProblems(d) <==> Count(d.addOns, EspressoShot) > MaxEspressoShots
    ensures TooMuchCaramel(Count(d.addOns, Caramel)) in DrinkProblems(d) <==> Count(d.addOns, Caramel) > MaxSyrupPumps
    ensures TooMuchHazelnut(Count(d.addOns, Hazelnut)) in DrinkProblems(d) <==> Count(d.addOns, Hazelnut) > MaxSyrupPumps
  {
    CapsListed(d);
    CapReported(d, TooManyShots(Count(d.addOns, EspressoShot)));
    CapReported(d, TooMuchCaramel(Count(d.addOns, Caramel)));
    CapReported(d, TooMuchHazelnut(Count(d.addOns, Hazelnut)));
  }

  /** A pastry on the menu gets at most one error: too few below one, too many above ten, none in between. */
  lemma PastryQuantityRule(p: PastryItem)
    ensures p.name !in Pastries ==> PastryProblems(p) == [UnknownPastry]
    ensures p.name in Pastries ==> |PastryProblems(p)| <= 1
    ensures p.name in Pastries ==> (QuantityTooLow in PastryProblems(p) <==> p.quantity < 1)
    ensures p.name in Pastries ==> (QuantityTooHigh in PastryProblems(p) <==> p.quantity > MaxPastryQuantity)
  {
  }

  /** A small hot cold brew with nothing else set gets the iced-only error and no other. */
  lemma HotColdBrew()
    ensures DrinkProblems(DrinkItem("cold_brew", Some("small"), Some("hot"), None, None, None, [])) == [IcedOnly("cold_brew")]
  {
    var d := DrinkItem("cold_brew", Some("small"), Some("hot"), None, None, None, []);
    assert "cold_brew" in IcedOnlyDrinks && "cold_brew" !in MilkDrinks;
    assert HasValueIn(d.size, Sizes) && HasValueIn(d.temperature, Temperatures);
    assert RequiredFieldProblems(d) == [IcedOnly("cold_brew")];
    assert OptionalFieldProblems(d) == [];
    assert AddOnProblems(d) == [];
  }
}
