/** The order history page: the orders fetched for the shopper, newest
    first, each with its short order number, a status badge coloured by
    status, its item lines and totals. `Date` parsing arrives as a
    parameter `time` from a `createdAt` text to a timestamp. */
module OrderHistory {
  import opened Wrappers
  import opened Types
  import Strings
  import Api

  // ---- Newest first ----

  /** Orders ordered by non-increasing timestamp. */
  predicate NewestFirst(orders: seq<Order>, time: string -> int) {
    forall i, j | 0 <= i < j < |orders| :: time(orders[i].createdAt) >= time(orders[j].createdAt)
  }

  /** Places `o` in front of the first order that is not newer than it. */
  function Insert(o: Order, sorted: seq<Order>, time: string -> int): (r: seq<Order>)
    ensures multiset(r) == multiset(sorted) + multiset{o}
    ensures |r| == |sorted| + 1
  {
    if sorted == [] then [o]
    else if time(o.createdAt) >= time(sorted[0].createdAt) then [o] + sorted
    else
      assert sorted == [sorted[0]] + sorted[1..];
      [sorted[0]] + Insert(o, sorted[1..], time)
  }

  /** The tail of a newest-first list is newest first. */
  lemma TailNewestFirst(orders: seq<Order>, time: string -> int)
    requires orders != [] && NewestFirst(orders, time)
    ensures NewestFirst(orders[1..], time)
  {
  }

  /** Every order after the head of a newest-first list is no newer
      than the head. */
  lemma HeadIsNewest(sorted: seq<Order>, time: string -> int)
    requires sorted != [] && NewestFirst(sorted, time)
    ensures forall k | 0 <= k < |sorted[1..]| :: time(sorted[1..][k].createdAt) <= time(sorted[0].createdAt)
  {
  }

  /** A bound on the timestamps of a list and of `o` bounds every order of
      any rearrangement of the two. */
  lemma BoundSurvivesInsert(bound: int, o: Order, tail: seq<Order>, rest: seq<Order>, time: string -> int)
    requires time(o.createdAt) <= bound
    requires forall k | 0 <= k < |tail| :: time(tail[k].createdAt) <= bound
    requires multiset(rest) == multiset(tail) + multiset{o}
    ensures forall k | 0 <= k < |rest| :: time(rest[k].createdAt) <= bound
  {
    forall k | 0 <= k < |rest| ensures time(rest[k].createdAt) <= bound {
      var x := rest[k];
      assert x in multiset(rest);
      if x != o {
        assert x in multiset(tail);
        var m :| 0 <= m < |tail| && tail[m] == x;
      }
    }
  }

  /** Inserting into a newest-first list keeps it newest first. */
  lemma {:induction false} InsertKeepsNewestFirst(o: Order, sorted: seq<Order>, time: string -> int)
    requires NewestFirst(sorted, time)
    ensures NewestFirst(Insert(o, sorted, time), time)
  {
    if sorted != [] && time(o.createdAt) < time(sorted[0].createdAt) {
      var tail := sorted[1..];
      TailNewestFirst(sorted, time);
      InsertKeepsNewestFirst(o, tail, time);
      var rest := Insert(o, tail, time);
      HeadIsNewest(sorted, time);
      BoundSurvivesInsert(time(sorted[0].createdAt), o, tail, rest, time);
      var r := [sorted[0]] + rest;
      assert Insert(o, sorted, time) == r;
      forall i, j | 0 <= i < j < |r| ensures time(r[i].createdAt) >= time(r[j].createdAt) {
        assert r[j] == rest[j - 1];
        if i > 0 {
          assert r[i] == rest[i - 1];
        }
      }
    }
  }

  /** `[...data].sort((a, b) => time(b.createdAt) - time(a.createdAt))`:
      the same orders, newest first, ties in their original order. */
  function SortNewestFirst(orders: seq<Order>, time: string -> int): (r: seq<Order>)
    ensures NewestFirst(r, time)
    ensures multiset(r) == multiset(orders)
    ensures |r| == |orders|
  {
    if orders == [] then []
    else
      var rest := SortNewestFirst(orders[1..], time);
      InsertKeepsNewestFirst(orders[0], rest, time);
      MultisetOfHeadAndTail(orders);
      Insert(orders[0], rest, time)
  }

  /** A list holds its head and its tail. */
  lemma MultisetOfHeadAndTail(orders: seq<Order>)
    requires orders != []
    ensures multiset(orders) == multiset(orders[1..]) + multiset{orders[0]}
  {
    assert orders == [orders[0]] + orders[1..];
  }

  /** Orders already newest first are left exactly as they are; in
      particular orders placed at the same moment keep their order. */
  lemma {:induction false} SortKeepsSortedOrders(orders: seq<Order>, time: string -> int)
    requires NewestFirst(orders, time)
    ensures SortNewestFirst(orders, time) == orders
  {
    if orders != [] {
      var tail := orders[1..];
      TailNewestFirst(orders, time);
      SortKeepsSortedOrders(tail, time);
      if tail != [] {
        assert tail[0] == orders[1];
      }
      assert [orders[0]] + tail == orders;
    }
  }

  /** Sorting twice is sorting once. */
  lemma SortIdempotent(orders: seq<Order>, time: string -> int)
    ensures SortNewestFirst(SortNewestFirst(orders, time), time) == SortNewestFirst(orders, time)
  {
    SortKeepsSortedOrders(SortNewestFirst(orders, time), time);
  }

  // ---- Status badge ----

  datatype Color = Green | Blue | Yellow | Red | Gray

  /** `getStatusColor`: the four known statuses, matched without regard to
      case; anything else is gray. */
  function StatusColor(status: string): (r: Color)
    ensures r == Green <==> Strings.Lower(status) == "delivered"
    ensures r == Blue <==> Strings.Lower(status) == "shipped"
    ensures r == Yellow <==> Strings.Lower(status) == "processing"
    ensures r == Red <==> Strings.Lower(status) == "cancelled"
  {
    var s := Strings.Lower(status);
    if s == "delivered" then Green
    else if s == "shipped" then Blue
    else if s == "processing" then Yellow
    else if s == "cancelled" then Red
    else Gray
  }

  /** `status.charAt(0).toUpperCase() + status.slice(1)`. */
  function StatusLabel(status: string): (r: string)
    ensures |r| == |status|
    ensures status != [] ==> r[0] == Strings.UpperChar(status[0]) && r[1..] == status[1..]
  {
    if status == [] then [] else [Strings.UpperChar(status[0])] + status[1..]
  }

  /** Only the case of the first letter changes, so the label lower-cases
      to what the status does. */
  lemma StatusLabelLowersAlike(status: string)
    ensures Strings.Lower(StatusLabel(status)) == Strings.Lower(status)
  {
  }

  /** The badge's colour does not depend on the capitalisation the badge
      shows: the label and the raw status get the same colour. */
  lemma BadgeColorAgreesWithLabel(status: string)
    ensures StatusColor(StatusLabel(status)) == StatusColor(status)
  {
  }

  // ---- Order number ----

  /** `id.split('-')[1] || id`: the text between the first and second '-'
      when there is one and it is not empty, otherwise the whole id. */
  function OrderLabel(id: string): (r: string)
    ensures r == id || (r != "" && '-' !in r)
  {
    var pieces := Strings.Split(id, '-');
    if |pieces| > 1 && pieces[1] != "" then pieces[1] else id
  }

  /** An id with no '-' is shown whole. */
  lemma OrderLabelOfPlainId(id: string)
    requires '-' !in id
    ensures OrderLabel(id) == id
  {
    Strings.SplitWithoutSep(id, '-');
  }

  /** For an id `prefix-middle…` the label is `middle`, the text up to the
      next '-' or the end, unless that text is empty. */
  lemma OrderLabelOfDashedId(prefix: string, middle: string, rest: string)
    requires '-' !in prefix && '-' !in middle
    requires rest == [] || rest[0] == '-'
    ensures OrderLabel(prefix + "-" + middle + rest) == if middle != "" then middle else prefix + "-" + middle + rest
  {
    var id := prefix + "-" + middle + rest;
    assert id == prefix + ['-'] + (middle + rest);
    Strings.SplitAfterPiece(prefix, middle + rest, '-');
    Strings.SplitFirstPiece(middle, rest, '-');
  }

  // ---- Count text ----

  const NoOrders := "You have no orders yet"

  /** The header line under the title. */
  function CountText(count: nat): (r: string)
    ensures count == 0 <==> r == NoOrders
    ensures count > 0 ==> r == "You have " + Strings.NatToDecimal(count) + " " + Strings.Plural(count, "order")
  {
    if count == 0 then NoOrders
    else
      var r := "You have " + Strings.NatToDecimal(count) + " " + Strings.Plural(count, "order");
      assert r[|r| - 1] in "rs";
      r
  }

  /** With at least one order the noun takes an "s" exactly when the count
      is not one. */
  lemma CountTextPlural(count: nat)
    requires count >= 1
    ensures var t := CountText(count); t[|t| - 1] == 's' <==> count != 1
  {
  }

  // ---- Loading and rendering ----

  /** The page's state. */
  datatype History = History(orders: seq<Order>, isLoading: bool, error: string)

  const Opened := History([], true, "")

  datatype OrdersReply = Replied(success: bool, data: Option<seq<Order>>) | Threw(thrown: Thrown)

  const LoadFailed := "Failed to load orders. Please try again."

  /** `fetchOrders`: clears the error; a successful reply stores the orders
      newest first; a rejection stores the error's message as it is (even
      an empty one) or the fallback; loading always ends. */
  function Fetch(s: History, reply: OrdersReply, time: string -> int): (r: History)
    ensures !r.isLoading
    ensures reply.Replied? && reply.success && reply.data.Some? ==>
      && r.error == ""
      && multiset(r.orders) == multiset(reply.data.value)
      && NewestFirst(r.orders, time)
    ensures reply.Replied? && !(reply.success && reply.data.Some?) ==> r.orders == s.orders && r.error == ""
    ensures reply.Threw? ==> r.orders == s.orders
    ensures reply.Threw? && reply.thrown.ErrorValue? ==> r.error == reply.thrown.message
    ensures reply.Threw? && reply.thrown.OtherValue? ==> r.error == LoadFailed
  {
    var started := s.(isLoading := true, error := "");
    match reply
    case Replied(success, data) =>
      if success && data.Some? then started.(orders := SortNewestFirst(data.value, time), isLoading := false)
      else started.(isLoading := false)
    case Threw(e) =>
      var message := match e case ErrorValue(m) => m case OtherValue => LoadFailed;
      started.(error := message, isLoading := false)
  }

  /** One order as listed. */
  datatype Entry = Entry(orderNumber: string, color: Color, statusLabel: string, lineTotals: seq<real>, total: real)

  /** What one item line costs: quantity times unit price. */
  function ItemLineTotal(item: OrderItem): real {
    item.quantity as real * item.price
  }

  function EntryOf(o: Order): (r: Entry)
    ensures r.orderNumber == OrderLabel(o.id) && r.color == StatusColor(o.status) && r.statusLabel == StatusLabel(o.status)
    ensures |r.lineTotals| == |o.items|
    ensures forall i | 0 <= i < |o.items| :: r.lineTotals[i] == o.items[i].quantity as real * o.items[i].price
    ensures r.total == o.total
  {
    Entry(OrderLabel(o.id), StatusColor(o.status), StatusLabel(o.status),
          seq(|o.items|, i requires 0 <= i < |o.items| => ItemLineTotal(o.items[i])), o.total)
  }

  datatype Screen = Spinner | Failed(message: string) | Listed(countText: string, entries: seq<Entry>)

  /** The spinner while loading, the error when there is one, otherwise the
      count line and one entry per order in the stored order; with no
      orders the entry list is empty and the page offers the catalogue. */
  function Render(s: History): (r: Screen)
    ensures r.Spinner? <==> s.isLoading
    ensures r.Failed? <==> !s.isLoading && s.error != ""
    ensures r.Failed? ==> r.message == s.error
    ensures r.Listed? ==>
      && r.countText == CountText(|s.orders|)
      && |r.entries| == |s.orders|
      && forall i | 0 <= i < |s.orders| :: r.entries[i] == EntryOf(s.orders[i])
  {
    if s.isLoading then Spinner
    else if s.error != "" then Failed(s.error)
    else Listed(CountText(|s.orders|), seq(|s.orders|, i requires 0 <= i < |s.orders| => EntryOf(s.orders[i])))
  }

  /** A rejection carrying an `Error` with an empty message shows no error
      at all: the first load then reads "You have no orders yet". The
      HTTP service never rejects that way (its messages are never empty,
      see `ServiceRejectionShowsError`); only another thrower could. */
  lemma EmptyErrorMessageHidesFailure(time: string -> int)
    ensures Render(Fetch(Opened, Threw(ErrorValue("")), time)) == Listed(NoOrders, [])
  {
  }

  /** A rejection from the HTTP service always reaches the page: its
      message is never empty, so the error screen shows it. */
  lemma ServiceRejectionShowsError(s: History, failure: Api.HttpFailure, time: string -> int)
    ensures var r := Render(Fetch(s, Threw(ErrorValue(Api.ErrorMessage(failure))), time));
      r == Failed(Api.ErrorMessage(failure))
  {
  }
}
