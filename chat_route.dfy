/**
 * What the chat endpoint does to the agent's reply before returning it:
 * it removes items the agent repeated while clarifying an order, then
 * refuses to call an order complete while validation still finds errors.
 *
 * A repeated item is recognised by the "partial restatement" order on drinks
 * (`DrinkIsSubsetOf`): same name, every field the smaller drink sets is set
 * the same way on the larger one, and the larger one has strictly more
 * filled fields. Pastries are only dropped when they repeat exactly.
 */
module ChatRoute {
  import opened Util
  import opened OrderTypes
  import opened OrderRules

  // ---------------------------------------------------------------------------
  // The partial restatement order
  // ---------------------------------------------------------------------------

  function Flag(field: Option<string>): nat {
    if Filled(field) then 1 else 0
  }

  /** Filled scalar modifiers, plus one per add-on entry. */
  function FilledFieldCount(d: DrinkItem): (n: nat)
    ensures n == |d.addOns| + Count([Filled(d.size), Filled(d.temperature), Filled(d.milk), Filled(d.sweetness), Filled(d.iceLevel)], true)
    ensures |d.addOns| <= n <= |d.addOns| + 5
    ensures n == |d.addOns| <==>
              !Filled(d.size) && !Filled(d.temperature) && !Filled(d.milk) && !Filled(d.sweetness) && !Filled(d.iceLevel)
  {
    CountFiveFlags(Filled(d.size), Filled(d.temperature), Filled(d.milk), Filled(d.sweetness), Filled(d.iceLevel));
    Flag(d.size) + Flag(d.temperature) + Flag(d.milk) + Flag(d.sweetness) + Flag(d.iceLevel) + |d.addOns|
  }

  /** Counting the true entries of a five-flag list, one flag at a time. */
  lemma CountFiveFlags(a: bool, b: bool, c: bool, d: bool, e: bool)
    ensures Count([a, b, c, d, e], true)
            == (if a then 1 else 0) + (if b then 1 else 0) + (if c then 1 else 0) + (if d then 1 else 0) + (if e then 1 else 0)
  {
    assert [a][..0] == [];
    assert Count([a], true) == (if a then 1 else 0);
    assert [a, b][..1] == [a];
    assert Count([a, b], true) == Count([a], true) + (if b then 1 else 0);
    assert [a, b, c][..2] == [a, b];
    assert Count([a, b, c], true) == Count([a, b], true) + (if c then 1 else 0);
    assert [a, b, c, d][..3] == [a, b, c];
    assert Count([a, b, c, d], true) == Count([a, b, c], true) + (if d then 1 else 0);
    assert [a, b, c, d, e][..4] == [a, b, c, d];
  }

  /** A field the first drink leaves open, or sets to what the second one has. */
  predicate Agrees(a: Option<string>, b: Option<string>) {
    !Filled(a) || a == b
  }

  /**
   * `a` restates part of `b`: same name, each filled field of `a` equal on
   * `b`, each add-on of `a` among those of `b`, and fewer filled fields.
   */
  predicate DrinkIsSubsetOf(a: DrinkItem, b: DrinkItem) {
    && a.name == b.name
    && Agrees(a.size, b.size)
    && Agrees(a.temperature, b.temperature)
    && Agrees(a.milk, b.milk)
    && Agrees(a.sweetness, b.sweetness)
    && Agrees(a.iceLevel, b.iceLevel)
    && (forall x :: x in a.addOns ==> x in b.addOns)
    && FilledFieldCount(a) < FilledFieldCount(b)
  }

  /** No drink restates itself, so two identical drinks are two drinks. */
  lemma SubsetIrreflexive(a: DrinkItem)
    ensures !DrinkIsSubsetOf(a, a)
  {
  }

  /** The order is strict: never both ways, and it chains. */
  lemma SubsetStrictOrder(a: DrinkItem, b: DrinkItem, c: DrinkItem)
    ensures DrinkIsSubsetOf(a, b) ==> a.name == b.name && FilledFieldCount(a) < FilledFieldCount(b)
    ensures DrinkIsSubsetOf(a, b) ==> !DrinkIsSubsetOf(b, a)
    ensures DrinkIsSubsetOf(a, b) && DrinkIsSubsetOf(b, c) ==> DrinkIsSubsetOf(a, c)
  {
  }

  // ---------------------------------------------------------------------------
  // Deduplication
  // ---------------------------------------------------------------------------

  /** `r` is a drink of which `d` restates part. */
  predicate Covers(r: OrderItem, d: DrinkItem) {
    r.Drink? && DrinkIsSubsetOf(d, r.drink)
  }

  /** `r` is a drink that restates part of `d`. */
  predicate CoveredBy(r: OrderItem, d: DrinkItem) {
    r.Drink? && DrinkIsSubsetOf(r.drink, d)
  }

  /** `r` is the same pastry in the same quantity. */
  predicate SamePastry(r: OrderItem, p: PastryItem) {
    r.Pastry? && r.pastry.name == p.name && r.pastry.quantity == p.quantity
  }

  function SupersetIndex(result: seq<OrderItem>, d: DrinkItem): int {
    FindIndex(result, r => Covers(r, d))
  }

  function SubsetIndex(result: seq<OrderItem>, d: DrinkItem): int {
    FindIndex(result, r => CoveredBy(r, d))
  }

  function ExactDupeIndex(result: seq<OrderItem>, p: PastryItem): int {
    FindIndex(result, r => SamePastry(r, p))
  }

  /** One step of the pass: skip the item, replace an earlier drink with it, or append it. */
  function DedupStep(result: seq<OrderItem>, item: OrderItem): seq<OrderItem> {
    match item
    case Drink(d) =>
      if SupersetIndex(result, d) >= 0 then result
      else
        var k := SubsetIndex(result, d);
        if k >= 0 then result[k := item] else result + [item]
    case Pastry(p) =>
      if ExactDupeIndex(result, p) >= 0 then result else result + [item]
  }

  /** The result of the pass over `items`. */
  function Deduplicate(items: seq<OrderItem>): seq<OrderItem> {
    if |items| == 0 then []
    else DedupStep(Deduplicate(items[..|items| - 1]), items[|items| - 1])
  }

  /** The single pass over the items, updating `result` in place. */
  method DeduplicateItems(items: seq<OrderItem>) returns (result: seq<OrderItem>)
    ensures result == Deduplicate(items)
  {
    result := [];
    for i := 0 to |items|
      invariant result == Deduplicate(items[..i])
    {
      assert items[..i + 1][..i] == items[..i];
      var item := items[i];
      match item {
        case Drink(drink) =>
          var supersetIdx := SupersetIndex(result, drink);
          if supersetIdx >= 0 {
            continue;
          }
          var subsetIdx := SubsetIndex(result, drink);
          if subsetIdx >= 0 {
            result := result[subsetIdx := item];
          } else {
            result := result + [item];
          }
        case Pastry(pastry) =>
          var exactDupe := ExactDupeIndex(result, pastry);
          if exactDupe >= 0 {
            continue;
          }
          result := result + [item];
      }
    }
    assert items[..|items|] == items;
  }

  /**
   * What one step does to a drink, in terms of what is already kept: it is
   * dropped exactly when a kept drink covers it; otherwise it replaces the
   * first kept drink it covers, or is appended when there is none.
   */
  lemma DrinkStep(result: seq<OrderItem>, d: DrinkItem)
    ensures (exists j :: 0 <= j < |result| && Covers(result[j], d)) ==> DedupStep(result, Drink(d)) == result
    ensures (forall j :: 0 <= j < |result| ==> !Covers(result[j], d)) ==>
              Drink(d) in DedupStep(result, Drink(d))
    ensures (forall j :: 0 <= j < |result| ==> !Covers(result[j], d)) &&
            (exists j :: 0 <= j < |result| && CoveredBy(result[j], d)) ==>
              exists k :: 0 <= k < |result| && CoveredBy(result[k], d)
                && (forall j :: 0 <= j < k ==> !CoveredBy(result[j], d))
                && DedupStep(result, Drink(d)) == result[k := Drink(d)]
    ensures (forall j :: 0 <= j < |result| ==> !Covers(result[j], d) && !CoveredBy(result[j], d)) ==>
              DedupStep(result, Drink(d)) == result + [Drink(d)]
  {
    var sup := SupersetIndex(result, d);
    var sub := SubsetIndex(result, d);
    if sup < 0 {
      if sub >= 0 {
        assert result[sub := Drink(d)][sub] == Drink(d);
      } else {
        assert (result + [Drink(d)])[|result|] == Drink(d);
      }
    }
  }

  /** A step adds at most one item, and only the item it is given. */
  lemma DedupStepShape(result: seq<OrderItem>, item: OrderItem)
    ensures |DedupStep(result, item)| <= |result| + 1
    ensures forall x :: x in DedupStep(result, item) ==> x in result || x == item
  {
    if item.Drink? && SupersetIndex(result, item.drink) < 0 && SubsetIndex(result, item.drink) >= 0 {
      var k := SubsetIndex(result, item.drink);
      forall x | x in result[k := item]
        ensures x in result || x == item
      {
        var i :| 0 <= i < |result| && result[k := item][i] == x;
        if i != k {
          assert result[i] == x;
        }
      }
    }
  }

  /** The pass never adds items: the output is no longer than the input and holds only input items. */
  lemma {:induction false} DeduplicateShape(items: seq<OrderItem>)
    ensures |Deduplicate(items)| <= |items|
    ensures forall x :: x in Deduplicate(items) ==> x in items
  {
    if |items| > 0 {
      var n := |items| - 1;
      DeduplicateShape(items[..n]);
      DedupStepShape(Deduplicate(items[..n]), items[n]);
      assert forall x :: x in items[..n] ==> x in items;
    }
  }

  /** Two drinks neither of which restates the other are both kept, in order. */
  lemma IncomparableDrinksKept(a: DrinkItem, b: DrinkItem)
    requires !DrinkIsSubsetOf(a, b) && !DrinkIsSubsetOf(b, a)
    ensures Deduplicate([Drink(a), Drink(b)]) == [Drink(a), Drink(b)]
  {
    assert [Drink(a), Drink(b)][..1] == [Drink(a)];
    assert [Drink(a)][..0] == [];
    assert Deduplicate([Drink(a)]) == [Drink(a)];
    assert !Covers(Drink(a), b) && !CoveredBy(Drink(a), b);
    DrinkStep([Drink(a)], b);
  }

  /** So two identical drinks are both kept. */
  lemma IdenticalDrinksKept(d: DrinkItem)
    ensures Deduplicate([Drink(d), Drink(d)]) == [Drink(d), Drink(d)]
  {
    SubsetIrreflexive(d);
    IncomparableDrinksKept(d, d);
  }

  /** A single drink is kept as it is. */
  lemma SingleDrinkKept(d: DrinkItem)
    ensures Deduplicate([Drink(d)]) == [Drink(d)]
  {
    assert [Drink(d)][..0] == [];
  }

  /** A fuller drink after a partial one replaces it. */
  lemma FullerDrinkReplaces(a: DrinkItem, b: DrinkItem)
    requires DrinkIsSubsetOf(a, b)
    ensures Deduplicate([Drink(a), Drink(b)]) == [Drink(b)]
  {
    SubsetStrictOrder(a, b, b);
    assert [Drink(a), Drink(b)][..1] == [Drink(a)];
    SingleDrinkKept(a);
    var kept := [Drink(a)];
    assert !Covers(kept[0], b);
    assert SupersetIndex(kept, b) == -1;
    assert CoveredBy(kept[0], b);
    assert SubsetIndex(kept, b) == 0;
    assert DedupStep(kept, Drink(b)) == kept[0 := Drink(b)];
  }

  /** A partial drink after a fuller one is dropped. */
  lemma PartialDrinkDropped(a: DrinkItem, b: DrinkItem)
    requires DrinkIsSubsetOf(a, b)
    ensures Deduplicate([Drink(b), Drink(a)]) == [Drink(b)]
  {
    assert [Drink(b), Drink(a)][..1] == [Drink(b)];
    SingleDrinkKept(b);
    var kept := [Drink(b)];
    assert Covers(kept[0], a);
    assert SupersetIndex(kept, a) == 0;
  }

  /** A partial restatement and the fuller drink merge into the fuller one, in either order. */
  lemma RestatementMerged(a: DrinkItem, b: DrinkItem)
    requires DrinkIsSubsetOf(a, b)
    ensures Deduplicate([Drink(a), Drink(b)]) == [Drink(b)]
    ensures Deduplicate([Drink(b), Drink(a)]) == [Drink(b)]
  {
    FullerDrinkReplaces(a, b);
    PartialDrinkDropped(a, b);
  }

  /** The pastries of a list of items, in order. */
  function PastriesOf(items: seq<OrderItem>): seq<PastryItem> {
    if |items| == 0 then []
    else
      var last := items[|items| - 1];
      PastriesOf(items[..|items| - 1]) + (if last.Pastry? then [last.pastry] else [])
  }

  /** The first occurrence of every element, in order. */
  function KeepFirst(s: seq<PastryItem>): (r: seq<PastryItem>)
    ensures forall x :: x in r <==> x in s
    ensures forall i, j :: 0 <= i < j < |r| ==> r[i] != r[j]
    ensures forall i, j :: 0 <= i < j < |r| ==> IndexOf(s, r[i]) < IndexOf(s, r[j])
  {
    if |s| == 0 then []
    else
      var prefix := KeepFirst(s[..|s| - 1]);
      IndexOfExtend(s);
      if s[|s| - 1] in prefix then prefix else prefix + [s[|s| - 1]]
  }

  lemma {:induction false} PastriesOfReplaceDrink(s: seq<OrderItem>, k: nat, x: OrderItem)
    requires k < |s| && s[k].Drink? && x.Drink?
    ensures PastriesOf(s[k := x]) == PastriesOf(s)
  {
    var n := |s| - 1;
    if k < n {
      assert s[k := x][..n] == s[..n][k := x];
      PastriesOfReplaceDrink(s[..n], k, x);
    } else {
      assert s[k := x][..n] == s[..n];
    }
  }

  lemma {:induction false} InPastriesOf(s: seq<OrderItem>, p: PastryItem)
    ensures p in PastriesOf(s) <==> exists j :: 0 <= j < |s| && s[j] == Pastry(p)
  {
    if |s| > 0 {
      var n := |s| - 1;
      InPastriesOf(s[..n], p);
      if exists j :: 0 <= j < n && s[..n][j] == Pastry(p) {
        var j :| 0 <= j < n && s[..n][j] == Pastry(p);
        assert s[j] == Pastry(p);
      }
      if exists j :: 0 <= j < |s| && s[j] == Pastry(p) {
        var j :| 0 <= j < |s| && s[j] == Pastry(p);
        if j < n {
          assert s[..n][j] == Pastry(p);
        }
      }
    }
  }

  lemma ExactDupeIffListed(s: seq<OrderItem>, p: PastryItem)
    ensures ExactDupeIndex(s, p) >= 0 <==> p in PastriesOf(s)
  {
    InPastriesOf(s, p);
    var k := ExactDupeIndex(s, p);
    if k >= 0 {
      assert s[k] == Pastry(p);
    } else {
      forall j | 0 <= j < |s|
        ensures s[j] != Pastry(p)
      {
        assert !SamePastry(s[j], p);
      }
    }
  }

  /** A drink step leaves the pastries alone; a pastry step appends the pastry unless it is already listed. */
  lemma PastriesOfStep(result: seq<OrderItem>, item: OrderItem)
    ensures item.Drink? ==> PastriesOf(DedupStep(result, item)) == PastriesOf(result)
    ensures item.Pastry? ==>
              PastriesOf(DedupStep(result, item)) ==
              if item.pastry in PastriesOf(result) then PastriesOf(result) else PastriesOf(result) + [item.pastry]
  {
    assert (result + [item])[..|result|] == result;
    match item {
      case Drink(d) =>
        if SupersetIndex(result, d) < 0 && SubsetIndex(result, d) >= 0 {
          PastriesOfReplaceDrink(result, SubsetIndex(result, d), item);
        }
      case Pastry(p) =>
        ExactDupeIffListed(result, p);
    }
  }

  /**
   * Pastries go through the pass as their first occurrences, in input order:
   * so no two kept pastries repeat the same name and quantity.
   */
  lemma {:induction false} DeduplicatePastries(items: seq<OrderItem>)
    ensures PastriesOf(Deduplicate(items)) == KeepFirst(PastriesOf(items))
  {
    if |items| > 0 {
      var n := |items| - 1;
      DeduplicatePastries(items[..n]);
      PastriesOfStep(Deduplicate(items[..n]), items[n]);
      assert Deduplicate(items) == DedupStep(Deduplicate(items[..n]), items[n]);
      if items[n].Pastry? {
        var ps := PastriesOf(items);
        assert ps == PastriesOf(items[..n]) + [items[n].pastry];
        assert ps[..|ps| - 1] == PastriesOf(items[..n]);
      } else {
        assert PastriesOf(items) == PastriesOf(items[..n]);
      }
    }
  }

  /** The counterexample to idempotence: a second pass can still merge items. */
  lemma DeduplicateNotIdempotent()
    ensures var small := DrinkItem("latte", Some("small"), None, None, None, None, []);
            var hot := DrinkItem("latte", None, Some("hot"), None, None, None, []);
            var both := DrinkItem("latte", Some("small"), Some("hot"), None, None, None, []);
            && Deduplicate([Drink(small), Drink(hot), Drink(both)]) == [Drink(both), Drink(hot)]
            && Deduplicate([Drink(both), Drink(hot)]) == [Drink(both)]
  {
    var small := DrinkItem("latte", Some("small"), None, None, None, None, []);
    var hot := DrinkItem("latte", None, Some("hot"), None, None, None, []);
    var both := DrinkItem("latte", Some("small"), Some("hot"), None, None, None, []);
    ThreeLattesFirstPass(small, hot, both);
    assert DrinkIsSubsetOf(hot, both);
    RestatementMerged(hot, both);
  }

  /** The first pass over the three lattes keeps the fuller one and the hot one. */
  lemma ThreeLattesFirstPass(small: DrinkItem, hot: DrinkItem, both: DrinkItem)
    requires small == DrinkItem("latte", Some("small"), None, None, None, None, [])
    requires hot == DrinkItem("latte", None, Some("hot"), None, None, None, [])
    requires both == DrinkItem("latte", Some("small"), Some("hot"), None, None, None, [])
    ensures Deduplicate([Drink(small), Drink(hot), Drink(both)]) == [Drink(both), Drink(hot)]
  {
    assert !DrinkIsSubsetOf(small, hot) && !DrinkIsSubsetOf(hot, small);
    IncomparableDrinksKept(small, hot);
    var three := [Drink(small), Drink(hot), Drink(both)];
    assert three[..2] == [Drink(small), Drink(hot)];
    assert !DrinkIsSubsetOf(both, small) && !DrinkIsSubsetOf(both, hot);
    assert DrinkIsSubsetOf(small, both);
    DrinkStep([Drink(small), Drink(hot)], both);
  }

  // ---------------------------------------------------------------------------
  // The completion guard
  // ---------------------------------------------------------------------------

  /** An order the agent calls complete is reopened, with the first error as the reply, while errors remain. */
  function GuardCompletion(payload: ChatResponsePayload, errors: seq<ValidationError>): ChatResponsePayload {
    if payload.isComplete && |errors| > 0 then
      payload.(isComplete := false, assistantMessage := errors[0].Text())
    else payload
  }

  /** The reply the endpoint sends for the agent's payload. */
  function GuardedReply(payload: ChatResponsePayload): ChatResponsePayload {
    var state := OrderState(Deduplicate(payload.updatedOrderState.items));
    GuardCompletion(payload.(updatedOrderState := state), ValidationErrors(state))
  }

  /** Deduplicate the items, validate them, and downgrade a premature completion. */
  method GuardReply(payload: ChatResponsePayload) returns (reply: ChatResponsePayload)
    ensures reply == GuardedReply(payload)
  {
    var items := DeduplicateItems(payload.updatedOrderState.items);
    reply := payload.(updatedOrderState := OrderState(items));
    var validationErrors := ValidateOrderState(reply.updatedOrderState);
    if reply.isComplete && |validationErrors| > 0 {
      reply := reply.(isComplete := false, assistantMessage := validationErrors[0].Text());
    }
  }

  /**
   * The reply carries the deduplicated items; it is complete only when the
   * agent said so and nothing is wrong; a reopened order answers with the
   * first error; otherwise the agent's message and flag pass through.
   */
  lemma GuardedReplyShape(payload: ChatResponsePayload)
    ensures var reply := GuardedReply(payload);
            var errors := ValidationErrors(reply.updatedOrderState);
            && reply.updatedOrderState.items == Deduplicate(payload.updatedOrderState.items)
            && (reply.isComplete <==> payload.isComplete && errors == [])
            && (payload.isComplete && errors != [] ==> reply.assistantMessage == errors[0].Text())
            && (!(payload.isComplete && errors != []) ==> reply.assistantMessage == payload.assistantMessage)
  {
  }

  /**
   * A reply marked complete carries an order the rules accept: at most 15
   * items, each of them acceptable.
   */
  lemma CompleteReplyIsValid(payload: ChatResponsePayload)
    ensures var reply := GuardedReply(payload);
            reply.isComplete ==>
              |reply.updatedOrderState.items| <= MaxItemsPerOrder
              && forall i :: 0 <= i < |reply.updatedOrderState.items| ==>
                   AcceptableItem(reply.updatedOrderState.items[i])
  {
    var reply := GuardedReply(payload);
    NoErrorsIffAcceptable(reply.updatedOrderState);
  }
}
