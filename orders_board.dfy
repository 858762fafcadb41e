/**
 * The staff orders board: the status each order moves to next, whether its
 * action button shows, the status filter, the per-status counts, and the
 * elapsed-time caption of each card.
 */
module OrdersBoard {
  import opened Util
  import OrderTypes

  datatype Status = Pending | InProgress | Completed

  /** An order as the board lists it. */
  datatype Order = Order(id: string, status: Status, items: seq<OrderTypes.OrderItem>)

  // ---------------------------------------------------------------------------
  // Status transitions
  // ---------------------------------------------------------------------------

  /** `NEXT_STATUS`: pending, then in progress, then completed, then nothing. */
  function NextStatus(s: Status): (r: Option<Status>)
    ensures r.None? <==> s == Completed
    ensures r.Some? ==> Stage(r.value) == Stage(s) + 1
  {
    match s
    case Pending => Some(InProgress)
    case InProgress => Some(Completed)
    case Completed => None
  }

  /** How far along an order is. */
  function Stage(s: Status): (n: nat)
    ensures n <= 2
  {
    match s
    case Pending => 0
    case InProgress => 1
    case Completed => 2
  }

  /** `STATUS_ACTION`: the caption of the button that moves an order on. */
  function StatusAction(s: Status): string {
    match s
    case Pending => "Start Making"
    case InProgress => "Mark Completed"
    case Completed => ""
  }

  /** The card shows its action button when there is a next status. */
  predicate ActionOffered(s: Status) {
    NextStatus(s).Some?
  }

  /** A button is offered exactly when its caption is not empty, that is for every status but completed. */
  lemma ActionMatchesCaption(s: Status)
    ensures ActionOffered(s) <==> StatusAction(s) != ""
    ensures ActionOffered(s) <==> s != Completed
  {
  }

  /** The status after `k` presses of the action button (pressing does nothing once none is offered). */
  function Advance(s: Status, k: nat): Status
    decreases k
  {
    if k == 0 then s
    else
      match NextStatus(s)
      case None => s
      case Some(t) => Advance(t, k - 1)
  }

  /** Each press moves one stage on until completed: never back, and completed within two presses. */
  lemma {:induction false} AdvanceStages(s: Status, k: nat)
    decreases k
    ensures Stage(Advance(s, k)) == if Stage(s) + k <= 2 then Stage(s) + k else 2
    ensures Stage(s) <= Stage(Advance(s, k))
    ensures k >= 2 ==> Advance(s, k) == Completed
  {
    if k > 0 {
      match NextStatus(s)
      case None =>
      case Some(t) =>
        AdvanceStages(t, k - 1);
    }
  }

  /** `STATUS_LABEL`: the badge on each card. */
  function StatusLabel(s: Status): string {
    match s
    case Pending => "Pending"
    case InProgress => "In Progress"
    case Completed => "Completed"
  }

  /** Each status has its own badge. */
  lemma StatusLabelsDistinct(s: Status, t: Status)
    ensures StatusLabel(s) == StatusLabel(t) <==> s == t
  {
    if s != t {
      assert StatusLabel(s)[0] != StatusLabel(t)[0] || |StatusLabel(s)| != |StatusLabel(t)|;
    }
  }

  /** `order.id.slice(0, 8)`: the card's short reference. */
  function ShortId(id: string): (r: string)
    ensures |r| == if |id| < 8 then |id| else 8
    ensures r <= id
  {
    if |id| < 8 then id else id[..8]
  }

  /** The count caption: `${n} item`, with an "s" unless there is exactly one. */
  function ItemsCaption(n: nat): (r: string)
    ensures |r| == |NatToString(n)| + 5 + (if n != 1 then 1 else 0)
    ensures r[..|NatToString(n)|] == NatToString(n)
    ensures r[|NatToString(n)|..|NatToString(n)| + 5] == " item"
    ensures r[|r| - 1] == 's' <==> n != 1
  {
    NatToString(n) + " item" + (if n != 1 then "s" else "")
  }

  /** `toLowerCase` on one ASCII character. */
  function LowerChar(c: char): char {
    if 'A' <= c <= 'Z' then (c as int + 32) as char else c
  }

  /** `toLowerCase` on ASCII text. */
  function Lower(s: string): (r: string)
    ensures |r| == |s|
    ensures forall i :: 0 <= i < |s| ==> r[i] == LowerChar(s[i])
  {
    if |s| == 0 then "" else Lower(s[..|s| - 1]) + [LowerChar(s[|s| - 1])]
  }

  /** Lower-casing works character by character from the end. */
  lemma LowerSnoc(s: string, c: char)
    ensures Lower(s + [c]) == Lower(s) + [LowerChar(c)]
  {
    assert (s + [c])[..|s|] == s;
  }

  /** The three badges, lower-cased. */
  lemma LowerPending()
    ensures Lower("Pending") == "pending"
  {
    LowerSnoc("Pendin", 'g');
    LowerSnoc("Pendi", 'n');
    LowerSnoc("Pend", 'i');
    LowerSnoc("Pen", 'd');
    LowerSnoc("Pe", 'n');
    LowerSnoc("P", 'e');
    LowerSnoc("", 'P');
  }

  lemma LowerInProgress()
    ensures Lower("In Progress") == "in progress"
  {
    LowerSnoc("In Progres", 's');
    LowerSnoc("In Progre", 's');
    LowerSnoc("In Progr", 'e');
    LowerSnoc("In Prog", 'r');
    LowerSnoc("In Pro", 'g');
    LowerSnoc("In Pr", 'o');
    LowerSnoc("In P", 'r');
    LowerSnoc("In ", 'P');
    LowerSnoc("In", ' ');
    LowerSnoc("I", 'n');
    LowerSnoc("", 'I');
  }

  lemma LowerCompleted()
    ensures Lower("Completed") == "completed"
  {
    LowerSnoc("Complete", 'd');
    LowerSnoc("Complet", 'e');
    LowerSnoc("Comple", 't');
    LowerSnoc("Compl", 'e');
    LowerSnoc("Comp", 'l');
    LowerSnoc("Com", 'p');
    LowerSnoc("Co", 'm');
    LowerSnoc("C", 'o');
    LowerSnoc("", 'C');
  }

  /** The message shown when the tab has no orders. */
  function EmptyMessage(f: Filter): string {
    match f
    case All => "No orders yet."
    case Only(s) => "No " + Lower(StatusLabel(s)) + " orders."
  }

  /** The four messages an empty tab shows. */
  lemma EmptyMessageTexts()
    ensures EmptyMessage(All) == "No orders yet."
    ensures EmptyMessage(Only(Pending)) == "No pending orders."
    ensures EmptyMessage(Only(InProgress)) == "No in progress orders."
    ensures EmptyMessage(Only(Completed)) == "No completed orders."
  {
    PendingMessage();
    InProgressMessage();
    CompletedMessage();
  }

  /** The pending tab's empty message. */
  lemma PendingMessage()
    ensures EmptyMessage(Only(Pending)) == "No pending orders."
  {
    LowerPending();
  }

  /** The in progress tab's empty message. */
  lemma InProgressMessage()
    ensures EmptyMessage(Only(InProgress)) == "No in progress orders."
  {
    LowerInProgress();
  }

  /** The completed tab's empty message. */
  lemma CompletedMessage()
    ensures EmptyMessage(Only(Completed)) == "No completed orders."
  {
    LowerCompleted();
  }

  // ---------------------------------------------------------------------------
  // Filter and counts
  // ---------------------------------------------------------------------------

  /** The filter tabs: every order, or one status. */
  datatype Filter = All | Only(status: Status)

  /** `filter === "all" ? orders : orders.filter((o) => o.status === filter)`. */
  function FilterOrders(orders: seq<Order>, f: Filter): (r: seq<Order>)
    ensures f.All? ==> r == orders
    ensures f.Only? ==> forall o :: o in r <==> o in orders && o.status == f.status
  {
    if f.All? || |orders| == 0 then orders
    else
      var n := |orders| - 1;
      var front := FilterOrders(orders[..n], f);
      assert orders == orders[..n] + [orders[n]];
      if orders[n].status == f.status then front + [orders[n]] else front
  }

  /** Filtering works line by line: it keeps the relative order of the orders it keeps. */
  lemma {:induction false} FilterConcat(a: seq<Order>, b: seq<Order>, f: Filter)
    ensures FilterOrders(a + b, f) == FilterOrders(a, f) + FilterOrders(b, f)
  {
    if f.Only? && |b| > 0 {
      var n := |b| - 1;
      assert (a + b)[..|a + b| - 1] == a + b[..n];
      FilterConcat(a, b[..n], f);
    } else if f.Only? {
      assert a + b == a;
    }
  }

  /** `orders.filter((o) => o.status === s).length`. */
  function CountOf(orders: seq<Order>, s: Status): (n: nat)
    ensures n <= |orders|
  {
    if |orders| == 0 then 0
    else CountOf(orders[..|orders| - 1], s) + (if orders[|orders| - 1].status == s then 1 else 0)
  }

  /** Each count is the size of its filter tab, and the three counts share out all the orders. */
  lemma {:induction false} CountsPartition(orders: seq<Order>)
    ensures forall s :: CountOf(orders, s) == |FilterOrders(orders, Only(s))|
    ensures CountOf(orders, Pending) + CountOf(orders, InProgress) + CountOf(orders, Completed) == |orders|
  {
    if |orders| > 0 {
      CountsPartition(orders[..|orders| - 1]);
    }
  }

  // ---------------------------------------------------------------------------
  // Elapsed time
  // ---------------------------------------------------------------------------

  /** Whole minutes elapsed, rounded down (`Math.floor(diff / 60000)`). */
  function ElapsedMinutes(diffMs: int): (m: int)
    ensures 60000 * m <= diffMs < 60000 * (m + 1)
  {
    diffMs / 60000
  }

  /**
   * `timeAgo`, given the milliseconds elapsed: "just now" under a minute
   * (including a clock ahead of the order), then "<m>m ago" under an hour,
   * then "<h>h <m>m ago".
   */
  function TimeAgo(diffMs: int): (r: string)
    ensures r == "just now" <==> diffMs < 60000
  {
    var mins := ElapsedMinutes(diffMs);
    if mins < 1 then "just now"
    else if mins < 60 then Ago(NatToString(mins))
    else Ago(NatToString(mins / 60) + "h " + NatToString(mins % 60))
  }

  /** A duration followed by "m ago", which never reads "just now". */
  function Ago(duration: string): (r: string)
    ensures r != "just now"
  {
    var r := duration + "m ago";
    assert r[|r| - 1] == 'o';
    r
  }

  /** Digits followed by a separator split at the separator. */
  lemma SplitAfterDigits(x: string, y: string, x': string, y': string, sep: char)
    requires forall i :: 0 <= i < |x| ==> IsDigit(x[i])
    requires forall i :: 0 <= i < |x'| ==> IsDigit(x'[i])
    requires !IsDigit(sep)
    requires x + [sep] + y == x' + [sep] + y'
    ensures x == x' && y == y'
  {
    var s := x + [sep] + y;
    assert forall i :: 0 <= i < |x| ==> IsDigit(s[i]);
    assert forall i :: 0 <= i < |x'| ==> IsDigit(s[i]);
    assert !IsDigit(s[|x|]) && !IsDigit(s[|x'|]);
    assert x == s[..|x|] && x' == s[..|x'|];
    assert y == s[|x| + 1..] && y' == s[|x'| + 1..];
  }

  /** The caption determines the duration written before "m ago". */
  lemma AgoInjective(d: string, e: string)
    requires Ago(d) == Ago(e)
    ensures d == e
  {
    SplitAtSuffix(d, "m ago", e, "m ago");
  }

  /** The duration shown for `mins` whole minutes. */
  function Duration(mins: int): string
    requires mins >= 1
  {
    if mins < 60 then NatToString(mins)
    else NatToString(mins / 60) + "h " + NatToString(mins % 60)
  }

  /** Different elapsed minutes, from one minute on, read differently. */
  lemma TimeAgoInjective(a: int, b: int)
    requires ElapsedMinutes(a) >= 1 && ElapsedMinutes(b) >= 1
    requires TimeAgo(a) == TimeAgo(b)
    ensures ElapsedMinutes(a) == ElapsedMinutes(b)
  {
    var ma, mb := ElapsedMinutes(a), ElapsedMinutes(b);
    assert TimeAgo(a) == Ago(Duration(ma)) && TimeAgo(b) == Ago(Duration(mb));
    AgoInjective(Duration(ma), Duration(mb));
    DurationInjective(ma, mb);
  }

  /** Only durations of an hour or more mention hours. */
  lemma DurationHours(mins: int)
    requires mins >= 1
    ensures 'h' in Duration(mins) <==> mins >= 60
  {
    if mins >= 60 {
      assert Duration(mins)[|NatToString(mins / 60)|] == 'h';
    } else {
      assert !IsDigit('h');
    }
  }

  /** Different minute counts give different durations. */
  lemma DurationInjective(ma: int, mb: int)
    requires ma >= 1 && mb >= 1
    requires Duration(ma) == Duration(mb)
    ensures ma == mb
  {
    DurationHours(ma);
    DurationHours(mb);
    if ma < 60 && mb < 60 {
      NatToStringInjective(ma, mb);
    } else if ma >= 60 && mb >= 60 {
      var ha, ra, hb, rb := NatToString(ma / 60), NatToString(ma % 60), NatToString(mb / 60), NatToString(mb % 60);
      assert ha + "h " + ra == ha + ['h'] + (" " + ra);
      assert hb + "h " + rb == hb + ['h'] + (" " + rb);
      SplitAfterDigits(ha, " " + ra, hb, " " + rb, 'h');
      assert ra == (" " + ra)[1..] && rb == (" " + rb)[1..];
      NatToStringInjective(ma / 60, mb / 60);
      NatToStringInjective(ma % 60, mb % 60);
    }
  }
}
