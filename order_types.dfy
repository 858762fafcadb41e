/**
 * The order item model: the drink and pastry catalogs, the modifier
 * vocabularies, the two-case line item, the order state, the payload the
 * conversational agent returns, and the persisted order record.
 *
 * Names, modifiers and add-ons are kept as strings: the agent produces them
 * as untyped JSON, so a name outside the catalog is a value the engine must
 * be able to see and reject.
 */
module OrderTypes {
  import opened Util

  // ---------------------------------------------------------------------------
  // Catalogs
  // ---------------------------------------------------------------------------

  const CoffeeDrinks: seq<string> := ["americano", "latte", "cold_brew", "mocha", "frappuccino"]
  const TeaDrinks: seq<string> := ["black_tea", "jasmine_tea", "lemon_green_tea", "matcha_latte"]
  const AllDrinks: seq<string> := CoffeeDrinks + TeaDrinks
  const Pastries: seq<string> := ["plain_croissant", "chocolate_croissant", "chocolate_chip_cookie", "banana_bread"]

  const Sizes: seq<string> := ["small", "large"]
  const Temperatures: seq<string> := ["hot", "iced"]
  const Milks: seq<string> := ["whole", "skim", "oat", "almond"]
  const SweetnessLevels: seq<string> := ["no_sugar", "less_sugar", "regular", "extra_sugar"]
  const IceLevels: seq<string> := ["no_ice", "less_ice", "regular", "extra_ice"]
  const AddOns: seq<string> := ["extra_espresso_shot", "extra_matcha_shot", "caramel_syrup", "hazelnut_syrup"]

  predicate IsDrinkName(name: string) { name in AllDrinks }
  predicate IsPastryName(name: string) { name in Pastries }
  predicate IsCoffee(name: string) { name in CoffeeDrinks }
  predicate IsTea(name: string) { name in TeaDrinks }

  /** The drink catalog is the two families side by side; they share no name, and no drink is a pastry. */
  lemma CatalogShape()
    ensures |CoffeeDrinks| == 5 && |TeaDrinks| == 4 && |AllDrinks| == 9 && |Pastries| == 4
    ensures forall n :: IsDrinkName(n) <==> IsCoffee(n) || IsTea(n)
    ensures forall n :: !(IsCoffee(n) && IsTea(n))
    ensures forall n :: !(IsDrinkName(n) && IsPastryName(n))
  {
  }

  // ---------------------------------------------------------------------------
  // Line items
  // ---------------------------------------------------------------------------

  /**
   * A drink line. Each scalar modifier may independently be null; `addOns` is
   * an ordered list in which a token may repeat (two caramel entries are two
   * pumps).
   */
  datatype DrinkItem = DrinkItem(
    name: string,
    size: Option<string>,
    temperature: Option<string>,
    milk: Option<string>,
    sweetness: Option<string>,
    iceLevel: Option<string>,
    addOns: seq<string>)

  datatype PastryItem = PastryItem(name: string, quantity: int)

  /** A line item is a drink or a pastry, and nothing else. */
  datatype OrderItem = Drink(drink: DrinkItem) | Pastry(pastry: PastryItem)
  {
    function Name(): string {
      match this
      case Drink(d) => d.name
      case Pastry(p) => p.name
    }
  }

  /** Units one line stands for: a pastry's quantity, one for a drink. */
  function Quantity(item: OrderItem): int {
    match item
    case Pastry(p) => p.quantity
    case Drink(_) => 1
  }

  /** The items in insertion order; items carry no identifier. */
  datatype OrderState = OrderState(items: seq<OrderItem>)

  /** What the conversational agent returns for one turn. */
  datatype ChatResponsePayload = ChatResponsePayload(
    assistantMessage: string,
    updatedOrderState: OrderState,
    isComplete: bool)

  /**
   * JavaScript truthiness of a `string | null` field: set, and not the empty
   * string.
   */
  predicate Filled(field: Option<string>) {
    field.Some? && field.value != ""
  }

  /** The field is set (truthy) and to one of the given values. */
  predicate HasValueIn(field: Option<string>, values: seq<string>) {
    Filled(field) && field.value in values
  }

  // ---------------------------------------------------------------------------
  // Persisted orders
  // ---------------------------------------------------------------------------

  type Hour = h: int | 0 <= h < 24

  /**
   * A stored order. The creation timestamp appears only through what the
   * reports read from it on the local clock: its hour of day and whether it
   * falls on the current day.
   */
  datatype OrderRecord = OrderRecord(
    id: string,
    status: string,
    createdHour: Hour,
    createdToday: bool,
    items: seq<OrderItem>)

  const Pending := "pending"
  const InProgress := "in_progress"
  const Completed := "completed"

  /** `orders.filter((o) => o.status === status).length`. */
  function CountStatus(orders: seq<OrderRecord>, status: string): (n: nat)
    ensures n <= |orders|
  {
    if |orders| == 0 then 0
    else CountStatus(orders[..|orders| - 1], status) + (if orders[|orders| - 1].status == status then 1 else 0)
  }

  /** The three known statuses never count one order twice. */
  lemma {:induction false} StatusCountsBounded(orders: seq<OrderRecord>)
    ensures CountStatus(orders, Pending) + CountStatus(orders, InProgress) + CountStatus(orders, Completed) <= |orders|
    ensures (forall i :: 0 <= i < |orders| ==> orders[i].status in {Pending, InProgress, Completed}) ==>
              CountStatus(orders, Pending) + CountStatus(orders, InProgress) + CountStatus(orders, Completed) == |orders|
  {
    if |orders| > 0 {
      StatusCountsBounded(orders[..|orders| - 1]);
    }
  }
}
