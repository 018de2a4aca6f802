/**
 * The order list of the admin dashboard (AdminDashboard.tsx): the colour of
 * each status badge, the per-status counts on the filter buttons, the list a
 * filter shows, and the optimistic status update that a failed server call
 * rolls back.
 */
module AdminDashboard {
  import opened Types

  // ---------------------------------------------------------------------------
  // Status badges.

  /** The statuses the filter buttons and the status selector offer, in this order. */
  const ORDER_STATUSES: seq<OrderStatus> := [AwaitingConfirmation, Pending, InPreparation, ReadyForPickup, Completed]

  /** The class strings of the badges; the last one belongs to the `default` branch. */
  const ORANGE: string := "bg-orange-100 text-orange-800 border-orange-300"
  const YELLOW: string := "bg-yellow-100 text-yellow-800 border-yellow-300"
  const BLUE: string := "bg-blue-100 text-blue-800 border-blue-300"
  const PURPLE: string := "bg-purple-100 text-purple-800 border-purple-300"
  const GREEN: string := "bg-green-100 text-green-800 border-green-300"
  const DEFAULT_COLOR: string := "bg-red-100 text-red-800 border-red-300"

  /** `getStatusColor`: each offered status has a colour of its own; anything else is red. */
  function StatusColor(s: OrderStatus): (r: string)
    ensures r != DEFAULT_COLOR <==> s in ORDER_STATUSES
  {
    match s
    case AwaitingConfirmation => ORANGE
    case Pending => YELLOW
    case InPreparation => BLUE
    case ReadyForPickup => PURPLE
    case Completed => GREEN
    case Failed => DEFAULT_COLOR
  }

  /** Five statuses, none twice, every status but `錯誤`; each with a colour no other status has. */
  lemma OrderStatusesFacts()
    ensures |ORDER_STATUSES| == 5
    ensures forall i, j :: 0 <= i < j < |ORDER_STATUSES| ==> ORDER_STATUSES[i] != ORDER_STATUSES[j]
    ensures forall s :: s in ORDER_STATUSES <==> s != Failed
    ensures forall s, t :: s != t ==> StatusColor(s) != StatusColor(t)
  {
    forall s, t | s != t
      ensures StatusColor(s) != StatusColor(t)
    {
      ColorInitial(s);
      ColorInitial(t);
    }
  }

  /** The first letter of the colour name, which tells the class strings apart. */
  function Hue(s: OrderStatus): char {
    match s
    case AwaitingConfirmation => 'o'
    case Pending => 'y'
    case InPreparation => 'b'
    case ReadyForPickup => 'p'
    case Completed => 'g'
    case Failed => 'r'
  }

  lemma ColorInitial(s: OrderStatus)
    ensures |StatusColor(s)| > 3 && StatusColor(s)[3] == Hue(s)
  {
    assert ORANGE[3] == 'o' && YELLOW[3] == 'y' && BLUE[3] == 'b';
    assert PURPLE[3] == 'p' && GREEN[3] == 'g' && DEFAULT_COLOR[3] == 'r';
  }

  // ---------------------------------------------------------------------------
  // Counting.

  /** The number of orders with status `s`. */
  function CountStatus(orders: seq<Order>, s: OrderStatus): (n: nat)
    ensures n <= |orders|
  {
    if orders == [] then 0
    else CountStatus(orders[..|orders| - 1], s) + (if orders[|orders| - 1].status == s then 1 else 0)
  }

  /** The filter of the order list: `'all'` or one status; also the keys of `statusCounts`. */
  datatype StatusFilter = AllOrders | Only(status: OrderStatus)

  /** The number of orders a filter lets through. */
  function CountFor(orders: seq<Order>, f: StatusFilter): nat {
    match f
    case AllOrders => |orders|
    case Only(s) => CountStatus(orders, s)
  }

  /** The `statusCounts` object: one figure for `'all'` and one per status. */
  datatype StatusCountTable = StatusCountTable(
    all: int,
    awaitingConfirmation: int,
    pending: int,
    inPreparation: int,
    readyForPickup: int,
    completed: int,
    failed: int)
  {
    /** `statusCounts[key]`. */
    function At(f: StatusFilter): int {
      match f
      case AllOrders => all
      case Only(AwaitingConfirmation) => awaitingConfirmation
      case Only(Pending) => pending
      case Only(InPreparation) => inPreparation
      case Only(ReadyForPickup) => readyForPickup
      case Only(Completed) => completed
      case Only(Failed) => failed
    }
  }

  /** `counts[status] || 0`: an absent key is read as zero. */
  function Lookup(counts: map<OrderStatus, int>, s: OrderStatus): int {
    if s in counts then counts[s] else 0
  }

  /**
   * `statusCounts`: fold the orders into an object holding a count per status
   * met so far, then read off the table, with `all` the number of orders.
   */
  method StatusCounts(orders: seq<Order>) returns (counts: StatusCountTable)
    ensures forall f :: counts.At(f) == CountFor(orders, f)
  {
    var acc: map<OrderStatus, int> := map[];
    var i := 0;
    while i < |orders|
      invariant 0 <= i <= |orders|
      invariant forall s :: Lookup(acc, s) == CountStatus(orders[..i], s)
      invariant forall s :: s in acc ==> acc[s] > 0
    {
      var o := orders[i];
      assert orders[..i + 1][..i] == orders[..i];
      acc := acc[o.status := Lookup(acc, o.status) + 1];
      i := i + 1;
    }
    assert orders[..i] == orders;
    counts := StatusCountTable(
      |orders|,
      Lookup(acc, AwaitingConfirmation),
      Lookup(acc, Pending),
      Lookup(acc, InPreparation),
      Lookup(acc, ReadyForPickup),
      Lookup(acc, Completed),
      Lookup(acc, Failed));
  }

  /** Every order has exactly one status, so the six status counts add up to `all`. */
  lemma {:induction false} CountsAddUp(orders: seq<Order>)
    ensures CountStatus(orders, AwaitingConfirmation) + CountStatus(orders, Pending) +
      CountStatus(orders, InPreparation) + CountStatus(orders, ReadyForPickup) +
      CountStatus(orders, Completed) + CountStatus(orders, Failed) == |orders|
  {
    if orders != [] {
      CountsAddUp(orders[..|orders| - 1]);
    }
  }

  // ---------------------------------------------------------------------------
  // Filtering.

  /** `a` is `b` with some elements left out, the rest kept in their order. */
  predicate IsSubsequence<T(==)>(a: seq<T>, b: seq<T>)
    decreases |b|
  {
    a == [] ||
    (b != [] &&
      ((a[|a| - 1] == b[|b| - 1] && IsSubsequence(a[..|a| - 1], b[..|b| - 1])) || IsSubsequence(a, b[..|b| - 1])))
  }

  /** `filteredOrders`: the whole list for `'all'`, else the orders with that status, in list order. */
  function FilterOrders(orders: seq<Order>, f: StatusFilter): (r: seq<Order>)
    ensures f.AllOrders? ==> r == orders
    ensures f.Only? ==> forall i :: 0 <= i < |r| ==> r[i].status == f.status
    ensures |r| == CountFor(orders, f)
  {
    match f
    case AllOrders => orders
    case Only(s) => KeepStatus(orders, s)
  }

  function KeepStatus(orders: seq<Order>, s: OrderStatus): (r: seq<Order>)
    ensures forall i :: 0 <= i < |r| ==> r[i].status == s
    ensures |r| == CountStatus(orders, s)
  {
    if orders == [] then []
    else
      var init := orders[..|orders| - 1];
      var last := orders[|orders| - 1];
      var rest := KeepStatus(init, s);
      if last.status == s then rest + [last]
      else rest
  }

  /** A status filter misses none of the orders with that status. */
  lemma FilterKeepsMatching(orders: seq<Order>, s: OrderStatus)
    ensures forall i :: 0 <= i < |orders| && orders[i].status == s ==> orders[i] in FilterOrders(orders, Only(s))
  {
    KeepsMatching(orders, s);
  }

  lemma {:induction false} KeepsMatching(orders: seq<Order>, s: OrderStatus)
    ensures forall i :: 0 <= i < |orders| && orders[i].status == s ==> orders[i] in KeepStatus(orders, s)
  {
    if orders != [] {
      var n := |orders|;
      var init := orders[..n - 1];
      KeepsMatching(init, s);
      assert forall i :: 0 <= i < n - 1 ==> orders[i] == init[i];
    }
  }

  /** A filter keeps the orders it lets through in their list order. */
  lemma FilterKeepsOrder(orders: seq<Order>, f: StatusFilter)
    ensures IsSubsequence(FilterOrders(orders, f), orders)
  {
    match f
    case AllOrders => SubsequenceOfItself(orders);
    case Only(s) => KeepsOrder(orders, s);
  }

  lemma {:induction false} KeepsOrder(orders: seq<Order>, s: OrderStatus)
    ensures IsSubsequence(KeepStatus(orders, s), orders)
  {
    if orders != [] {
      var n := |orders|;
      var init := orders[..n - 1];
      var rest := KeepStatus(init, s);
      KeepsOrder(init, s);
      if orders[n - 1].status == s {
        assert (rest + [orders[n - 1]])[..|rest|] == rest;
      }
    }
  }

  lemma {:induction false} SubsequenceOfItself<T>(a: seq<T>)
    ensures IsSubsequence(a, a)
  {
    if a != [] {
      SubsequenceOfItself(a[..|a| - 1]);
    }
  }

  /** The badge on each filter button shows the length of the list that filter shows. */
  lemma BadgeMatchesList(orders: seq<Order>, counts: StatusCountTable, f: StatusFilter)
    requires forall g :: counts.At(g) == CountFor(orders, g)
    ensures |FilterOrders(orders, f)| == counts.At(f)
  {
  }

  /** Filtering by a status twice is filtering once; `'all'` after a status changes nothing. */
  lemma {:induction false} FilterTwice(orders: seq<Order>, s: OrderStatus)
    ensures FilterOrders(FilterOrders(orders, Only(s)), Only(s)) == FilterOrders(orders, Only(s))
    ensures FilterOrders(FilterOrders(orders, Only(s)), AllOrders) == FilterOrders(orders, Only(s))
  {
    KeepAllKept(KeepStatus(orders, s), s);
  }

  lemma {:induction false} KeepAllKept(orders: seq<Order>, s: OrderStatus)
    requires forall i :: 0 <= i < |orders| ==> orders[i].status == s
    ensures KeepStatus(orders, s) == orders
  {
    if orders != [] {
      var n := |orders|;
      InitKeepsStatus(orders, orders[..n - 1], s);
      KeepAllKept(orders[..n - 1], s);
      InitAndLast(orders);
    }
  }

  lemma InitKeepsStatus(orders: seq<Order>, init: seq<Order>, s: OrderStatus)
    requires orders != [] && init == orders[..|orders| - 1]
    requires forall i :: 0 <= i < |orders| ==> orders[i].status == s
    ensures forall i :: 0 <= i < |init| ==> init[i].status == s
  {
  }

  /** A non-empty sequence is its front followed by its last element. */
  lemma InitAndLast<T>(a: seq<T>)
    requires a != []
    ensures a[..|a| - 1] + [a[|a| - 1]] == a
  {
  }

  // ---------------------------------------------------------------------------
  // Status update.

  /** `prev.map(o => o.id === id ? {...o, status} : o)`. */
  function WithStatus(orders: seq<Order>, id: string, status: OrderStatus): (r: seq<Order>)
    ensures |r| == |orders|
    ensures forall i :: 0 <= i < |r| ==> r[i].status == if orders[i].id == id then status else orders[i].status
  {
    seq(|orders|, i requires 0 <= i < |orders| => if orders[i].id == id then orders[i].(status := status) else orders[i])
  }

  /** The update changes nothing but the status: every other field of every order stays as it was. */
  lemma WithStatusKeepsFields(orders: seq<Order>, id: string, status: OrderStatus)
    ensures forall i :: 0 <= i < |orders| ==> WithStatus(orders, id, status)[i].(status := orders[i].status) == orders[i]
  {
  }

  /** The number of orders with this id. */
  function CountId(orders: seq<Order>, id: string): (n: nat)
    ensures n <= |orders|
  {
    if orders == [] then 0
    else CountId(orders[..|orders| - 1], id) + (if orders[|orders| - 1].id == id then 1 else 0)
  }

  /** The number of orders with this id and this status. */
  function CountIdStatus(orders: seq<Order>, id: string, s: OrderStatus): (n: nat)
    ensures n <= CountStatus(orders, s) && n <= CountId(orders, id)
  {
    if orders == [] then 0
    else CountIdStatus(orders[..|orders| - 1], id, s) + (if orders[|orders| - 1].id == id && orders[|orders| - 1].status == s then 1 else 0)
  }

  /**
   * The update moves the orders with this id out of their old status counts
   * and into the count of the new status.
   */
  lemma {:induction false} WithStatusCounts(orders: seq<Order>, id: string, status: OrderStatus, t: OrderStatus)
    ensures CountStatus(WithStatus(orders, id, status), t) ==
      CountStatus(orders, t) - CountIdStatus(orders, id, t) + (if t == status then CountId(orders, id) else 0)
  {
    if orders != [] {
      var init := orders[..|orders| - 1];
      WithStatusCounts(init, id, status, t);
      WithStatusCountStep(orders, id, status, t);
    }
  }

  /** The status count after the update, taken one order at a time from the back. */
  lemma WithStatusCountStep(orders: seq<Order>, id: string, status: OrderStatus, t: OrderStatus)
    requires orders != []
    ensures var o := orders[|orders| - 1];
      CountStatus(WithStatus(orders, id, status), t) ==
        CountStatus(WithStatus(orders[..|orders| - 1], id, status), t) +
        (if (if o.id == id then status else o.status) == t then 1 else 0)
  {
    WithStatusInit(orders, id, status);
  }

  /** The update of a list is the update of all but its last order, followed by the update of the last. */
  lemma WithStatusInit(orders: seq<Order>, id: string, status: OrderStatus)
    requires orders != []
    ensures WithStatus(orders, id, status)[..|orders| - 1] == WithStatus(orders[..|orders| - 1], id, status)
    ensures WithStatus(orders, id, status)[|orders| - 1].status ==
      if orders[|orders| - 1].id == id then status else orders[|orders| - 1].status
  {
    var n := |orders|;
    var init := orders[..n - 1];
    assert forall i :: 0 <= i < n - 1 ==> init[i] == orders[i];
    assert forall i :: 0 <= i < n - 1 ==> WithStatus(orders, id, status)[i] == WithStatus(init, id, status)[i];
  }

  /** With one order of this id, the update takes one off its old status count and adds one to the new. */
  lemma OneOrderMoves(orders: seq<Order>, id: string, from: OrderStatus, status: OrderStatus)
    requires CountId(orders, id) == 1 && CountIdStatus(orders, id, from) == 1
    requires from != status
    ensures CountStatus(WithStatus(orders, id, status), from) == CountStatus(orders, from) - 1
    ensures CountStatus(WithStatus(orders, id, status), status) == CountStatus(orders, status) + 1
  {
    WithStatusCounts(orders, id, status, from);
    WithStatusCounts(orders, id, status, status);
    IdStatusesAddUp(orders, id, status, from);
  }

  lemma {:induction false} IdStatusesAddUp(orders: seq<Order>, id: string, s: OrderStatus, t: OrderStatus)
    requires s != t
    ensures CountIdStatus(orders, id, s) + CountIdStatus(orders, id, t) <= CountId(orders, id)
  {
    if orders != [] {
      IdStatusesAddUp(orders[..|orders| - 1], id, s, t);
    }
  }

  /** A second update of the same order replaces the first; an update of an id no order has changes nothing. */
  lemma WithStatusFacts(orders: seq<Order>, id: string, a: OrderStatus, b: OrderStatus)
    ensures WithStatus(WithStatus(orders, id, a), id, b) == WithStatus(orders, id, b)
    ensures (forall i :: 0 <= i < |orders| ==> orders[i].id != id) ==> WithStatus(orders, id, a) == orders
  {
    var r := WithStatus(WithStatus(orders, id, a), id, b);
    assert forall i :: 0 <= i < |r| ==> r[i] == WithStatus(orders, id, b)[i];
    if forall i :: 0 <= i < |orders| ==> orders[i].id != id {
      assert forall i :: 0 <= i < |orders| ==> WithStatus(orders, id, a)[i] == orders[i];
    }
  }

  /** The order list the dashboard holds. */
  class Dashboard {
    var orders: seq<Order>

    constructor()
      ensures orders == []
    {
      orders := [];
    }

    /**
     * `handleUpdateStatus`: keep a copy of the list, apply the new status to
     * the order with this id at once, and put the copy back when the server
     * reports failure (`updateSucceeded` stands for `result.success`).
     */
    method HandleUpdateStatus(id: string, status: OrderStatus, updateSucceeded: bool)
      modifies this`orders
      ensures updateSucceeded ==> orders == WithStatus(old(orders), id, status)
      ensures !updateSucceeded ==> orders == old(orders)
    {
      var originalOrders := orders;
      orders := WithStatus(orders, id, status);
      if !updateSucceeded {
        orders := originalOrders;
      }
    }
  }
}
