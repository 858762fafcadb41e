/**
 * The point-of-sale cart: the list updaters behind the menu buttons (add a
 * configured drink, add or step a pastry, remove a line, step or remove a
 * display group) and the grouping of identical drinks for display, with the
 * cart's unit count and total.
 */
module Cart {
  import opened Util
  import opened OrderTypes
  import opened Pricing

  /** Most units of one pastry, or of one drink group, the cart takes. */
  const MaxCartQuantity: int := 20

  // ---------------------------------------------------------------------------
  // Updaters
  // ---------------------------------------------------------------------------

  /** `n` copies of `x`; a length below zero gives none, as `Array.from` does. */
  function Copies<T>(x: T, n: int): (r: seq<T>)
    ensures |r| == (if n > 0 then n else 0)
    ensures forall i :: 0 <= i < |r| ==> r[i] == x
  {
    if n <= 0 then [] else Copies(x, n - 1) + [x]
  }

  /** The drink the customisation dialog builds: no sweetness, no ice level, no add-ons. */
  function ConfiguredDrink(name: string, size: string, temperature: string, milk: Option<string>): OrderItem {
    Drink(DrinkItem(name, Some(size), Some(temperature), milk, None, None, []))
  }

  /**
   * `confirmAddToCart`: with a drink selected, `qty` copies of the configured
   * drink go after the existing lines; with none selected nothing changes.
   */
  function ConfirmAddToCart(cart: seq<OrderItem>, selected: Option<string>, size: string, temperature: string,
                            milk: Option<string>, qty: int): (r: seq<OrderItem>)
    ensures selected.None? ==> r == cart
    ensures selected.Some? ==> |r| == |cart| + (if qty > 0 then qty else 0)
    ensures r[..|cart|] == cart
    ensures selected.Some? ==> forall i :: |cart| <= i < |r| ==>
              r[i].Drink? && r[i].drink == DrinkItem(selected.value, Some(size), Some(temperature), milk, None, None, [])
  {
    if selected.None? then cart
    else
      var r := cart + Copies(ConfiguredDrink(selected.value, size, temperature, milk), qty);
      assert r[..|cart|] == cart;
      r
  }

  predicate IsPastryNamed(item: OrderItem, name: string) {
    item.Pastry? && item.pastry.name == name
  }

  /** The first pastry line with that name, or -1. */
  function PastryLine(cart: seq<OrderItem>, name: string): (k: int)
    ensures -1 <= k < |cart|
    ensures k >= 0 ==> IsPastryNamed(cart[k], name)
    ensures forall j :: 0 <= j < |cart| && (k < 0 || j < k) ==> !IsPastryNamed(cart[j], name)
  {
    FindIndex(cart, (it: OrderItem) => IsPastryNamed(it, name))
  }

  /**
   * `addPastryToCart`: a pastry already in the cart gains one unit, unless it
   * is at the cap; a new pastry is appended with quantity 1.
   */
  function AddPastryToCart(cart: seq<OrderItem>, name: string): (r: seq<OrderItem>)
    ensures PastryLine(cart, name) < 0 ==> r == cart + [Pastry(PastryItem(name, 1))]
    ensures PastryLine(cart, name) >= 0 && cart[PastryLine(cart, name)].pastry.quantity >= MaxCartQuantity ==> r == cart
    ensures PastryLine(cart, name) >= 0 && cart[PastryLine(cart, name)].pastry.quantity < MaxCartQuantity ==>
              |r| == |cart|
              && r[PastryLine(cart, name)] == Pastry(PastryItem(name, cart[PastryLine(cart, name)].pastry.quantity + 1))
              && forall j :: 0 <= j < |cart| && j != PastryLine(cart, name) ==> r[j] == cart[j]
  {
    var idx := PastryLine(cart, name);
    if idx >= 0 then
      var current := cart[idx].pastry.quantity;
      if current >= MaxCartQuantity then cart
      else cart[idx := Pastry(cart[idx].pastry.(quantity := current + 1))]
    else cart + [Pastry(PastryItem(name, 1))]
  }

  /** `removeFromCart`: the line at `index` goes, the rest keep their order. */
  function RemoveFromCart(cart: seq<OrderItem>, index: int): (r: seq<OrderItem>)
    ensures 0 <= index < |cart| ==> r == cart[..index] + cart[index + 1..]
    ensures !(0 <= index < |cart|) ==> r == cart
  {
    if 0 <= index < |cart| then
      KeepAllButOne(cart, index);
      KeepIndices(cart, {index})
    else
      KeepIndicesNoDrop(cart, {index});
      KeepIndices(cart, {index})
  }

  /**
   * `updatePastryQty`: only a pastry line changes; at zero or below it is
   * removed, above the cap nothing changes, otherwise it takes the new
   * quantity in place.
   */
  function UpdatePastryQty(cart: seq<OrderItem>, index: int, delta: int): (r: seq<OrderItem>)
    ensures !(0 <= index < |cart| && cart[index].Pastry?) ==> r == cart
    ensures 0 <= index < |cart| && cart[index].Pastry? && cart[index].pastry.quantity + delta <= 0 ==>
              r == cart[..index] + cart[index + 1..]
    ensures 0 <= index < |cart| && cart[index].Pastry? && cart[index].pastry.quantity + delta > MaxCartQuantity ==>
              r == cart
    ensures 0 <= index < |cart| && cart[index].Pastry? && 0 < cart[index].pastry.quantity + delta <= MaxCartQuantity ==>
              |r| == |cart|
              && r[index] == Pastry(cart[index].pastry.(quantity := cart[index].pastry.quantity + delta))
              && forall j :: 0 <= j < |cart| && j != index ==> r[j] == cart[j]
  {
    if !(0 <= index < |cart|) || !cart[index].Pastry? then cart
    else
      var pastry := cart[index].pastry;
      var newQty := pastry.quantity + delta;
      if newQty <= 0 then RemoveFromCart(cart, index)
      else if newQty > MaxCartQuantity then cart
      else cart[index := Pastry(pastry.(quantity := newQty))]
  }

  // ---------------------------------------------------------------------------
  // Display groups
  // ---------------------------------------------------------------------------

  /** One display line: a pastry line on its own, or every copy of one drink. */
  datatype CartGroup = CartGroup(item: OrderItem, qty: int, indices: seq<int>, unitPrice: int, lineTotal: int)

  function GroupQty(g: CartGroup): int { g.qty }
  function LineTotal(g: CartGroup): int { g.lineTotal }

  /**
   * Two drinks have the same grouping key: every scalar field agrees and the
   * add-ons are the same entries in any order (the key sorts them).
   */
  predicate SameDrink(a: DrinkItem, b: DrinkItem) {
    && a.name == b.name && a.size == b.size && a.temperature == b.temperature
    && a.milk == b.milk && a.sweetness == b.sweetness && a.iceLevel == b.iceLevel
    && multiset(a.addOns) == multiset(b.addOns)
  }

  /** The grouping key is an equivalence. */
  lemma SameDrinkEquivalence(a: DrinkItem, b: DrinkItem, c: DrinkItem)
    ensures SameDrink(a, a)
    ensures SameDrink(a, b) ==> SameDrink(b, a)
    ensures SameDrink(a, b) && SameDrink(b, c) ==> SameDrink(a, c)
  {
  }

  predicate IsGroupOf(g: CartGroup, d: DrinkItem) {
    g.item.Drink? && SameDrink(g.item.drink, d)
  }

  /** `groups.find(...)` by drink key, as an index, or -1. */
  function GroupOf(groups: seq<CartGroup>, d: DrinkItem): (k: int)
    ensures -1 <= k < |groups|
    ensures k >= 0 ==> IsGroupOf(groups[k], d)
    ensures forall j :: 0 <= j < |groups| && (k < 0 || j < k) ==> !IsGroupOf(groups[j], d)
  {
    FindIndex(groups, (g: CartGroup) => IsGroupOf(g, d))
  }

  /** The group a pastry line forms: its own quantity, priced per unit and in total. */
  function PastryGroup(p: PastryItem, i: int): CartGroup {
    CartGroup(Pastry(p), p.quantity, [i], ItemPrice(Pastry(p.(quantity := 1))), ItemPrice(Pastry(p)))
  }

  /** Line `i` of the cart into the groups built so far. */
  function GroupStep(groups: seq<CartGroup>, item: OrderItem, i: int): seq<CartGroup> {
    match item
    case Pastry(p) => groups + [PastryGroup(p, i)]
    case Drink(d) =>
      var k := GroupOf(groups, d);
      if k >= 0 then
        groups[k := groups[k].(qty := groups[k].qty + 1, indices := groups[k].indices + [i],
                               lineTotal := groups[k].lineTotal + ItemPrice(item))]
      else
        groups + [CartGroup(item, 1, [i], ItemPrice(item), ItemPrice(item))]
  }

  /** `cartGroups`, line by line. */
  function CartGroups(cart: seq<OrderItem>): seq<CartGroup> {
    if |cart| == 0 then []
    else GroupStep(CartGroups(cart[..|cart| - 1]), cart[|cart| - 1], |cart| - 1)
  }

  /**
   * The `cartGroups` loop: a pastry line opens its own group; a drink joins
   * the first group with its key, which counts it, records its line and adds
   * its price, or else opens a new group.
   */
  method GroupCart(cart: seq<OrderItem>) returns (groups: seq<CartGroup>)
    ensures groups == CartGroups(cart)
  {
    groups := [];
    for i := 0 to |cart|
      invariant groups == CartGroups(cart[..i])
    {
      assert cart[..i + 1][..i] == cart[..i];
      var item := cart[i];
      if item.Pastry? {
        var p := item.pastry;
        groups := groups + [CartGroup(item, p.quantity, [i], ItemPrice(Pastry(p.(quantity := 1))), ItemPrice(item))];
      } else {
        var existing := GroupOf(groups, item.drink);
        if existing >= 0 {
          var g := groups[existing];
          groups := groups[existing := g.(qty := g.qty + 1, indices := g.indices + [i],
                                          lineTotal := g.lineTotal + ItemPrice(item))];
        } else {
          var up := ItemPrice(item);
          groups := groups + [CartGroup(item, 1, [i], up, up)];
        }
      }
    }
    assert cart[..|cart|] == cart;
  }

  /** `cartGroups.reduce((s, g) => s + g.qty, 0)`. */
  function CartCount(groups: seq<CartGroup>): int {
    SumOf(groups, GroupQty)
  }

  /** `cartGroups.reduce((s, g) => s + g.lineTotal, 0)`. */
  function CartTotal(groups: seq<CartGroup>): int {
    SumOf(groups, LineTotal)
  }

  /** One more line moves the count by its units and the total by its price. */
  lemma GroupStepSums(groups: seq<CartGroup>, item: OrderItem, i: int)
    ensures CartCount(GroupStep(groups, item, i)) == CartCount(groups) + Quantity(item)
    ensures CartTotal(GroupStep(groups, item, i)) == CartTotal(groups) + ItemPrice(item)
  {
    match item
    case Pastry(p) =>
      SumOfConcat(groups, [PastryGroup(p, i)], GroupQty);
      SumOfConcat(groups, [PastryGroup(p, i)], LineTotal);
    case Drink(d) =>
      var k := GroupOf(groups, d);
      if k >= 0 {
        var g := groups[k].(qty := groups[k].qty + 1, indices := groups[k].indices + [i],
                            lineTotal := groups[k].lineTotal + ItemPrice(item));
        assert GroupStep(groups, item, i) == groups[k := g];
        SumOfUpdate(groups, k, g, GroupQty);
        SumOfUpdate(groups, k, g, LineTotal);
      } else {
        var g := CartGroup(item, 1, [i], ItemPrice(item), ItemPrice(item));
        assert GroupStep(groups, item, i) == groups + [g];
        SumOfConcat(groups, [g], GroupQty);
        SumOfConcat(groups, [g], LineTotal);
      }
  }

  /**
   * The badge count is the number of drinks plus the pastry quantities, and
   * the total is the sum of the line prices.
   */
  lemma {:induction false} CartSums(cart: seq<OrderItem>)
    ensures CartCount(CartGroups(cart)) == SumOf(cart, Quantity)
    ensures CartTotal(CartGroups(cart)) == SumOf(cart, ItemPrice)
  {
    if |cart| > 0 {
      var n := |cart| - 1;
      CartSums(cart[..n]);
      GroupStepSums(CartGroups(cart[..n]), cart[n], n);
    }
  }

  // ---------------------------------------------------------------------------
  // What the grouping keeps true
  // ---------------------------------------------------------------------------

  /** A cart line belongs in `g`: it is the group's pastry line, or a drink with the group's key. */
  predicate Belongs(g: CartGroup, item: OrderItem) {
    if g.item.Pastry? then item == g.item else item.Drink? && SameDrink(item.drink, g.item.drink)
  }

  /**
   * A group describes its lines: each recorded line exists and belongs in
   * it; a pastry group is one line counting its quantity; a drink group
   * counts its lines and is priced as its first drink; the line total is the
   * unit price times the count.
   */
  predicate GroupFaithful(g: CartGroup, cart: seq<OrderItem>) {
    && |g.indices| > 0
    && (forall x :: x in g.indices ==> 0 <= x < |cart| && Belongs(g, cart[x]))
    && (g.item.Pastry? ==> |g.indices| == 1 && g.qty == g.item.pastry.quantity)
    && (g.item.Drink? ==> g.qty == |g.indices| && g.unitPrice == ItemPrice(g.item))
    && g.lineTotal == g.unitPrice * g.qty
  }

  predicate GroupsFaithful(groups: seq<CartGroup>, cart: seq<OrderItem>) {
    forall a :: 0 <= a < |groups| ==> GroupFaithful(groups[a], cart)
  }

  /** No two drink groups share a key. */
  predicate KeysDistinct(groups: seq<CartGroup>) {
    forall a, b :: 0 <= a < b < |groups| && groups[a].item.Drink? && groups[b].item.Drink? ==>
      !SameDrink(groups[a].item.drink, groups[b].item.drink)
  }

  /** A group stays faithful when more lines are appended to the cart. */
  lemma GroupFaithfulExtends(g: CartGroup, cart: seq<OrderItem>, longer: seq<OrderItem>)
    requires GroupFaithful(g, cart)
    requires |cart| <= |longer| && longer[..|cart|] == cart
    ensures GroupFaithful(g, longer)
  {
    forall x | x in g.indices
      ensures 0 <= x < |longer| && Belongs(g, longer[x])
    {
      assert longer[..|cart|][x] == longer[x];
    }
  }

  /** A pastry line's group is priced at its unit price and counts its quantity. */
  lemma PastryGroupFaithful(cart: seq<OrderItem>, p: PastryItem)
    requires |cart| > 0 && cart[|cart| - 1] == Pastry(p)
    ensures GroupFaithful(PastryGroup(p, |cart| - 1), cart)
  {
    var g := PastryGroup(p, |cart| - 1);
    assert g.unitPrice == PastryUnitPrice(p);
  }

  /** Joining a drink to its group keeps the group faithful. */
  lemma JoinFaithful(g: CartGroup, cart: seq<OrderItem>, d: DrinkItem)
    requires |cart| > 0 && cart[|cart| - 1] == Drink(d)
    requires GroupFaithful(g, cart) && IsGroupOf(g, d)
    ensures GroupFaithful(g.(qty := g.qty + 1, indices := g.indices + [|cart| - 1],
                             lineTotal := g.lineTotal + ItemPrice(Drink(d))), cart)
  {
    AddOnOrderIrrelevant(g.item.drink, d);
    assert g.unitPrice * (g.qty + 1) == g.unitPrice * g.qty + g.unitPrice;
  }

  /** One more cart line keeps every group faithful and the drink keys distinct. */
  lemma {:induction false} GroupStepFaithful(groups: seq<CartGroup>, cart: seq<OrderItem>)
    requires |cart| > 0
    requires GroupsFaithful(groups, cart[..|cart| - 1]) && KeysDistinct(groups)
    ensures GroupsFaithful(GroupStep(groups, cart[|cart| - 1], |cart| - 1), cart)
    ensures KeysDistinct(GroupStep(groups, cart[|cart| - 1], |cart| - 1))
  {
    var n := |cart| - 1;
    forall a | 0 <= a < |groups|
      ensures GroupFaithful(groups[a], cart)
    {
      GroupFaithfulExtends(groups[a], cart[..n], cart);
    }
    var r := GroupStep(groups, cart[n], n);
    match cart[n]
    case Pastry(p) =>
      PastryGroupFaithful(cart, p);
      assert r == groups + [PastryGroup(p, n)];
    case Drink(d) =>
      var k := GroupOf(groups, d);
      if k >= 0 {
        var g := groups[k];
        JoinFaithful(g, cart, d);
        assert r == groups[k := g.(qty := g.qty + 1, indices := g.indices + [n],
                                   lineTotal := g.lineTotal + ItemPrice(cart[n]))];
      } else {
        assert r == groups + [CartGroup(cart[n], 1, [n], ItemPrice(cart[n]), ItemPrice(cart[n]))];
      }
  }

  /** After any cart: every group describes its lines, and no two drink groups share a key. */
  lemma {:induction false} CartGroupsFaithful(cart: seq<OrderItem>)
    ensures GroupsFaithful(CartGroups(cart), cart)
    ensures KeysDistinct(CartGroups(cart))
  {
    if |cart| > 0 {
      CartGroupsFaithful(cart[..|cart| - 1]);
      GroupStepFaithful(CartGroups(cart[..|cart| - 1]), cart);
    }
  }

  /** How many times the groups record line `x`. */
  function Recorded(groups: seq<CartGroup>, x: int): nat {
    if |groups| == 0 then 0 else Recorded(groups[..|groups| - 1], x) + Count(groups[|groups| - 1].indices, x)
  }

  /** Replacing one group swaps its records of `x` for the new group's. */
  lemma {:induction false} RecordedUpdate(groups: seq<CartGroup>, k: nat, g: CartGroup, x: int)
    requires k < |groups|
    ensures Recorded(groups[k := g], x) == Recorded(groups, x) - Count(groups[k].indices, x) + Count(g.indices, x)
  {
    var n := |groups| - 1;
    if k == n {
      assert groups[k := g][..n] == groups[..n];
    } else {
      assert groups[k := g][..n] == groups[..n][k := g];
      RecordedUpdate(groups[..n], k, g, x);
    }
  }

  /** Appending a line to an index list records it once more. */
  lemma CountAppend(s: seq<int>, i: int, x: int)
    ensures Count(s + [i], x) == Count(s, x) + (if i == x then 1 else 0)
  {
    assert (s + [i])[..|s|] == s;
  }

  /** One more line is recorded exactly once, and nothing else changes. */
  lemma GroupStepRecords(groups: seq<CartGroup>, item: OrderItem, i: int, x: int)
    ensures Recorded(GroupStep(groups, item, i), x) == Recorded(groups, x) + (if i == x then 1 else 0)
  {
    match item
    case Pastry(p) =>
      assert (groups + [PastryGroup(p, i)])[..|groups|] == groups;
    case Drink(d) =>
      var k := GroupOf(groups, d);
      if k >= 0 {
        var g := groups[k].(qty := groups[k].qty + 1, indices := groups[k].indices + [i],
                            lineTotal := groups[k].lineTotal + ItemPrice(item));
        assert GroupStep(groups, item, i) == groups[k := g];
        RecordedUpdate(groups, k, g, x);
        CountAppend(groups[k].indices, i, x);
      } else {
        var g := CartGroup(item, 1, [i], ItemPrice(item), ItemPrice(item));
        assert GroupStep(groups, item, i) == groups + [g];
        assert (groups + [g])[..|groups|] == groups;
      }
  }

  /** Every cart line is recorded exactly once over all the groups, and nothing else is. */
  lemma {:induction false} CartGroupsPartition(cart: seq<OrderItem>, x: int)
    ensures Recorded(CartGroups(cart), x) == (if 0 <= x < |cart| then 1 else 0)
  {
    if |cart| > 0 {
      var n := |cart| - 1;
      CartGroupsPartition(cart[..n], x);
      GroupStepRecords(CartGroups(cart[..n]), cart[n], n, x);
    }
  }

  /** A recorded line is recorded by some group. */
  lemma {:induction false} LineGroup(groups: seq<CartGroup>, x: int) returns (a: nat)
    requires Recorded(groups, x) > 0
    ensures a < |groups| && x in groups[a].indices
  {
    var n := |groups| - 1;
    if x in groups[n].indices {
      a := n;
    } else {
      a := LineGroup(groups[..n], x);
    }
  }

  /** Two drink lines share a display group exactly when they have the same key. */
  lemma SameGroupIffSameDrink(cart: seq<OrderItem>, i: int, j: int)
    requires 0 <= i < |cart| && 0 <= j < |cart| && cart[i].Drink? && cart[j].Drink?
    ensures (exists a :: 0 <= a < |CartGroups(cart)| && i in CartGroups(cart)[a].indices && j in CartGroups(cart)[a].indices)
            <==> SameDrink(cart[i].drink, cart[j].drink)
  {
    var groups := CartGroups(cart);
    CartGroupsFaithful(cart);
    CartGroupsPartition(cart, i);
    CartGroupsPartition(cart, j);
    var a := LineGroup(groups, i);
    var b := LineGroup(groups, j);
    assert GroupFaithful(groups[a], cart) && GroupFaithful(groups[b], cart);
    if SameDrink(cart[i].drink, cart[j].drink) {
      if a != b {
        SameDrinkEquivalence(groups[a].item.drink, cart[i].drink, cart[j].drink);
        SameDrinkEquivalence(groups[a].item.drink, cart[j].drink, groups[b].item.drink);
        SameDrinkEquivalence(cart[j].drink, groups[b].item.drink, cart[j].drink);
        SameDrinkEquivalence(groups[b].item.drink, groups[a].item.drink, cart[j].drink);
      }
      assert j in groups[a].indices;
    }
    forall c | 0 <= c < |groups| && i in groups[c].indices && j in groups[c].indices
      ensures SameDrink(cart[i].drink, cart[j].drink)
    {
      assert GroupFaithful(groups[c], cart);
      SameDrinkEquivalence(cart[i].drink, groups[c].item.drink, cart[j].drink);
    }
  }

  // ---------------------------------------------------------------------------
  // Group buttons
  // ---------------------------------------------------------------------------

  /** `group.indices[0]`, or an index no line has when the group is empty. */
  function FirstLine(g: CartGroup): int {
    if |g.indices| > 0 then g.indices[0] else -1
  }

  /** `group.indices[group.indices.length - 1]`, or an index no line has. */
  function LastLine(g: CartGroup): int {
    if |g.indices| > 0 then g.indices[|g.indices| - 1] else -1
  }

  /**
   * `incrementGroup`: nothing at the cap; a pastry group steps its line up by
   * one; a drink group gets another copy of its drink at the end.
   */
  function IncrementGroup(cart: seq<OrderItem>, g: CartGroup): (r: seq<OrderItem>)
    ensures g.qty >= MaxCartQuantity ==> r == cart
    ensures g.qty < MaxCartQuantity && g.item.Drink? ==> r == cart + [g.item]
    ensures g.qty < MaxCartQuantity && g.item.Pastry? ==> r == UpdatePastryQty(cart, FirstLine(g), 1)
  {
    if g.qty >= MaxCartQuantity then cart
    else if g.item.Pastry? then UpdatePastryQty(cart, FirstLine(g), 1)
    else cart + [g.item]
  }

  /** `decrementGroup`: a pastry group steps its line down by one; a drink group loses its last line. */
  function DecrementGroup(cart: seq<OrderItem>, g: CartGroup): (r: seq<OrderItem>)
    ensures g.item.Pastry? ==> r == UpdatePastryQty(cart, FirstLine(g), -1)
    ensures g.item.Drink? ==> r == RemoveFromCart(cart, LastLine(g))
  {
    if g.item.Pastry? then UpdatePastryQty(cart, FirstLine(g), -1)
    else KeepIndices(cart, {LastLine(g)})
  }

  /** `new Set(group.indices)`. */
  function Lines(g: CartGroup): (s: set<int>)
    ensures forall i :: i in s <==> i in g.indices
  {
    set i | i in g.indices
  }

  /** `removeGroup`: every line of the group goes. */
  function RemoveGroup(cart: seq<OrderItem>, g: CartGroup): (r: seq<OrderItem>)
    ensures |r| == |cart| - CountBelow(Lines(g), |cart|)
  {
    KeepIndices(cart, Lines(g))
  }

  /** Every line outside the group stays, moved down past the removed lines before it. */
  lemma RemoveGroupKeepsRest(cart: seq<OrderItem>, g: CartGroup, i: int)
    requires 0 <= i < |cart| && i !in g.indices
    ensures i - CountBelow(Lines(g), i) < |RemoveGroup(cart, g)|
    ensures RemoveGroup(cart, g)[i - CountBelow(Lines(g), i)] == cart[i]
  {
    KeepIndicesAt(cart, Lines(g), i);
  }

  /**
   * The buttons of a displayed group act on the group's own lines: the first
   * and last recorded lines exist and belong in it, so a drink group's minus
   * button removes one copy of its drink and a pastry group's plus button
   * below the cap steps that pastry line up by one.
   */
  lemma GroupButtons(cart: seq<OrderItem>, a: int)
    requires 0 <= a < |CartGroups(cart)|
    ensures 0 <= FirstLine(CartGroups(cart)[a]) < |cart| && Belongs(CartGroups(cart)[a], cart[FirstLine(CartGroups(cart)[a])])
    ensures 0 <= LastLine(CartGroups(cart)[a]) < |cart| && Belongs(CartGroups(cart)[a], cart[LastLine(CartGroups(cart)[a])])
    ensures CartGroups(cart)[a].item.Drink? ==> |DecrementGroup(cart, CartGroups(cart)[a])| == |cart| - 1
    ensures CartGroups(cart)[a].item.Pastry? && 0 <= CartGroups(cart)[a].qty < MaxCartQuantity ==>
              var k := FirstLine(CartGroups(cart)[a]);
              var r := IncrementGroup(cart, CartGroups(cart)[a]);
              |r| == |cart| && r[k].Pastry? && r[k].pastry.quantity == cart[k].pastry.quantity + 1
  {
    CartGroupsFaithful(cart);
    var g := CartGroups(cart)[a];
    assert GroupFaithful(g, cart);
    assert g.indices[0] in g.indices && g.indices[|g.indices| - 1] in g.indices;
  }

  /** A drink line outside a drink group does not have the group's key, so removing the group removes every copy. */
  lemma OutsideGroupDiffers(cart: seq<OrderItem>, a: int, i: int)
    requires 0 <= a < |CartGroups(cart)| && CartGroups(cart)[a].item.Drink?
    requires 0 <= i < |cart| && i !in CartGroups(cart)[a].indices && cart[i].Drink?
    ensures !SameDrink(cart[i].drink, CartGroups(cart)[a].item.drink)
  {
    var groups := CartGroups(cart);
    CartGroupsFaithful(cart);
    CartGroupsPartition(cart, i);
    var b := LineGroup(groups, i);
    assert GroupFaithful(groups[b], cart);
    assert a != b && groups[b].item.Drink?;
    assert SameDrink(cart[i].drink, groups[b].item.drink);
    assert !SameDrink(groups[a].item.drink, groups[b].item.drink);
  }
}
