/**
 * The derivations of the client dashboard (`src/pages/Dashboard.tsx`): the
 * search and status filter over the client's orders, the per-status count
 * table and the summary figures.
 */
module Dashboard {
  import opened Wrappers
  import opened Lists
  import opened Text
  import opened Types
  import MockData

  /** The status filter: every status ("ALL") or one status. */
  datatype StatusFilter = All | Only(status: Status)

  /** `STATUS_LIST`: the statuses offered as filter buttons. */
  const StatusList: seq<Status> := [
    ORDER_APPROVAL, RENDERING, DYEING, DYEING_READY, WAITING_FOR_LOOM, ONLOOM,
    ONLOOM_PROGRESS, OFFLOOM, FINISHING, DELIVERY_TIME,
    FIRST_REVISED_DELIVERY_DATE, SECOND_REVISED_DELIVERY_DATE
  ]

  /** The filter buttons are twelve distinct statuses: the `OrderStatus` union without YARN_ISSUED. */
  lemma StatusListContents()
    ensures |StatusList| == 12 && Distinct(StatusList)
    ensures forall s :: s in StatusList <==> s.InOrderStatusType() && s != YARN_ISSUED
  {
  }

  /** The search box: an empty query, or a case-insensitive hit in the order number or the carpet name. */
  predicate MatchesSearch(o: Order, query: string)
  {
    query == "" ||
    Includes(Lower(o.orderNumber), Lower(query)) ||
    Includes(Lower(o.carpetName), Lower(query))
  }

  predicate MatchesStatus(o: Order, filter: StatusFilter)
  {
    filter.All? || o.status == filter.status
  }

  /** `filteredOrders`: the client's orders that pass both the search and the status filter. */
  function FilteredOrders(clientOrders: seq<Order>, query: string, filter: StatusFilter): (r: seq<Order>)
    ensures IsSubsequence(r, clientOrders)
    ensures forall o :: o in r <==> o in clientOrders && MatchesSearch(o, query) && MatchesStatus(o, filter)
    ensures forall o :: multiset(r)[o] == (if MatchesSearch(o, query) && MatchesStatus(o, filter)
                                           then multiset(clientOrders)[o] else 0)
  {
    Filter((o: Order) => MatchesSearch(o, query) && MatchesStatus(o, filter), clientOrders)
  }

  /** With no query and "ALL" selected, every order is shown, in order. */
  lemma NoFilterShowsAll(clientOrders: seq<Order>)
    ensures FilteredOrders(clientOrders, "", All) == clientOrders
  {
    FilterKeepsAll((o: Order) => MatchesSearch(o, "") && MatchesStatus(o, All), clientOrders);
  }

  /** With one status selected, every order shown has that status. */
  lemma StatusFilterShowsOnlyThatStatus(clientOrders: seq<Order>, query: string, s: Status)
    ensures forall o :: o in FilteredOrders(clientOrders, query, Only(s)) ==> o.status == s
  {
  }

  /** The search is a case-insensitive substring test on the order number or the carpet name, never the client code. */
  lemma SearchIsSubstringOfNumberOrName(o: Order, query: string, clientCode: string)
    ensures MatchesSearch(o, query) <==>
      query == "" ||
      (exists k :: OccursAt(Lower(o.orderNumber), Lower(query), k)) ||
      (exists k :: OccursAt(Lower(o.carpetName), Lower(query), k))
    ensures MatchesSearch(o.(clientCode := clientCode), query) == MatchesSearch(o, query)
  {
    IncludesIsSubstring(Lower(o.orderNumber), Lower(query));
    IncludesIsSubstring(Lower(o.carpetName), Lower(query));
  }

  /** How many of `orders` have status `s`. */
  function CountIn(orders: seq<Order>, s: Status): (n: nat)
    ensures n <= |orders|
  {
    if orders == [] then 0
    else CountIn(orders[..|orders| - 1], s) + (if orders[|orders| - 1].status == s then 1 else 0)
  }

  /** `statusCounts[s] || 0`: an absent key reads as 0. */
  function CountOrZero(counts: map<Status, nat>, s: Status): nat
  {
    if s in counts then counts[s] else 0
  }

  /** `counts` has a key exactly for the statuses present in `orders`, holding how often each occurs. */
  ghost predicate CountsFaithful(orders: seq<Order>, counts: map<Status, nat>)
  {
    forall s :: (s in counts <==> CountIn(orders, s) > 0) && CountOrZero(counts, s) == CountIn(orders, s)
  }

  /** `statusCounts`: the `reduce` that bumps one key of the accumulator per order. */
  method StatusCounts(clientOrders: seq<Order>) returns (counts: map<Status, nat>)
    ensures CountsFaithful(clientOrders, counts)
  {
    counts := map[];
    for i := 0 to |clientOrders|
      invariant CountsFaithful(clientOrders[..i], counts)
    {
      var s := clientOrders[i].status;
      assert clientOrders[..i + 1][..i] == clientOrders[..i];
      counts := counts[s := CountOrZero(counts, s) + 1];
    }
    assert clientOrders[..|clientOrders|] == clientOrders;
  }

  /** The sum of the counts read for the statuses `ss`. */
  function SumCounts(counts: map<Status, nat>, ss: seq<Status>): nat
  {
    if ss == [] then 0 else CountOrZero(counts, ss[0]) + SumCounts(counts, ss[1..])
  }

  /** The number of `orders` whose status is among `ss`, counted status by status. */
  function TotalOver(orders: seq<Order>, ss: seq<Status>): nat
  {
    if ss == [] then 0 else CountIn(orders, ss[0]) + TotalOver(orders, ss[1..])
  }

  lemma {:induction false} TotalOverNoOrders(ss: seq<Status>)
    ensures TotalOver([], ss) == 0
  {
    if ss != [] {
      TotalOverNoOrders(ss[1..]);
    }
  }

  lemma {:induction false} TotalOverSnoc(orders: seq<Order>, o: Order, ss: seq<Status>)
    requires Distinct(ss)
    ensures TotalOver(orders + [o], ss) == TotalOver(orders, ss) + (if o.status in ss then 1 else 0)
  {
    if ss != [] {
      assert Distinct(ss[1..]);
      TotalOverSnoc(orders, o, ss[1..]);
      assert (orders + [o])[..|orders|] == orders;
      assert o.status in ss <==> o.status == ss[0] || o.status in ss[1..];
    }
  }

  /** Counting status by status over a repeat-free list that covers every status counts each order once. */
  lemma {:induction false} TotalOverCovering(orders: seq<Order>, ss: seq<Status>)
    requires Distinct(ss)
    requires forall o :: o in orders ==> o.status in ss
    ensures TotalOver(orders, ss) == |orders|
    decreases |orders|
  {
    if orders == [] {
      TotalOverNoOrders(ss);
    } else {
      var init, last := orders[..|orders| - 1], orders[|orders| - 1];
      assert orders == init + [last];
      TotalOverCovering(init, ss);
      TotalOverSnoc(init, last, ss);
    }
  }

  lemma {:induction false} SumCountsIsTotal(orders: seq<Order>, counts: map<Status, nat>, ss: seq<Status>)
    requires CountsFaithful(orders, counts)
    ensures SumCounts(counts, ss) == TotalOver(orders, ss)
  {
    if ss != [] {
      SumCountsIsTotal(orders, counts, ss[1..]);
    }
  }

  /** The count table, read for every status, adds up to the number of orders. */
  lemma StatusCountsSumToTotal(clientOrders: seq<Order>, counts: map<Status, nat>)
    requires CountsFaithful(clientOrders, counts)
    ensures SumCounts(counts, AllStatuses) == |clientOrders|
  {
    SumCountsIsTotal(clientOrders, counts, AllStatuses);
    AllStatusesDistinct();
    AllStatusesComplete();
    TotalOverCovering(clientOrders, AllStatuses);
  }

  /** How many of `orders` carry the delay flag, counted one by one. */
  function DelayedCount(orders: seq<Order>): nat
  {
    if orders == [] then 0 else (if orders[0].hasDelay then 1 else 0) + DelayedCount(orders[1..])
  }

  /** A filter by the delay flag keeps exactly as many orders as are delayed. */
  lemma {:induction false} DelayedFilterLength(orders: seq<Order>)
    ensures |Filter((o: Order) => o.hasDelay, orders)| == DelayedCount(orders)
  {
    if orders != [] {
      DelayedFilterLength(orders[1..]);
    }
  }

  /** `ordersWithDelay`: how many orders carry the delay flag. */
  function OrdersWithDelay(clientOrders: seq<Order>): (n: nat)
    ensures n == DelayedCount(clientOrders)
    ensures n <= |clientOrders|
    ensures n == |clientOrders| <==> forall o :: o in clientOrders ==> o.hasDelay
  {
    DelayedFilterLength(clientOrders);
    |Filter((o: Order) => o.hasDelay, clientOrders)|
  }

  /** The "In Production" figure: all orders less those counted under FINISHING. */
  function InProduction(clientOrders: seq<Order>, counts: map<Status, nat>): int
  {
    |clientOrders| - CountOrZero(counts, FINISHING)
  }

  /** "In Production" is never negative, and it counts the orders not in FINISHING. */
  lemma InProductionIsRest(clientOrders: seq<Order>, counts: map<Status, nat>)
    requires CountsFaithful(clientOrders, counts)
    ensures InProduction(clientOrders, counts) == |clientOrders| - CountIn(clientOrders, FINISHING) >= 0
  {
  }

  /**
   * The filter bar as written: each button destructures `label` from
   * `getStatusDisplayInfo(status)`, which throws a TypeError when that is
   * undefined, so the bar yields no labels at all (None).
   */
  function FilterBarLabelsAsWritten(statuses: seq<Status>): Option<seq<string>>
  {
    if statuses == [] then Some([])
    else match MockData.StatusDisplayInfo(statuses[0])
      case None => None
      case Some(info) =>
        match FilterBarLabelsAsWritten(statuses[1..])
        case None => None
        case Some(rest) => Some([info.caption] + rest)
  }

  /** The bar as written renders exactly when every status has display information. */
  lemma {:induction false} FilterBarAsWrittenNeedsLegacyStages(statuses: seq<Status>)
    ensures FilterBarLabelsAsWritten(statuses).Some? <==> forall s :: s in statuses ==> s in MockData.LegacyStages
  {
    if statuses != [] {
      FilterBarAsWrittenNeedsLegacyStages(statuses[1..]);
      assert forall s :: s in statuses <==> s == statuses[0] || s in statuses[1..];
    }
  }

  /** The dashboard's own list hits the throw: ORDER_APPROVAL, its first entry, has no display information. */
  lemma FilterBarAsWrittenThrows()
    ensures MockData.StatusDisplayInfo(StatusList[0]) == None
    ensures FilterBarLabelsAsWritten(StatusList) == None
  {
  }

  /** One button's label: the display label when there is one, else the raw status string. */
  function ButtonLabel(s: Status): string
  {
    match MockData.StatusDisplayInfo(s)
    case Some(info) => if info.caption != "" then info.caption else StatusName(s)
    case None => StatusName(s)
  }

  /** The filter bar with the fallback: one non-empty label per status, the display label where there is one. */
  function FilterBarLabels(statuses: seq<Status>): (labels: seq<string>)
    ensures |labels| == |statuses|
    ensures forall i :: 0 <= i < |statuses| ==>
              && labels[i] != ""
              && match MockData.StatusDisplayInfo(statuses[i])
                 case Some(info) => labels[i] == info.caption
                 case None => labels[i] == StatusName(statuses[i])
  {
    seq(|statuses|, i requires 0 <= i < |statuses| => ButtonLabel(statuses[i]))
  }

  /** Wherever the bar as written renders, the corrected bar renders the same labels. */
  lemma {:induction false} FilterBarLabelsAgree(statuses: seq<Status>)
    requires FilterBarLabelsAsWritten(statuses).Some?
    ensures FilterBarLabelsAsWritten(statuses) == Some(FilterBarLabels(statuses))
  {
    if statuses != [] {
      FilterBarLabelsAgree(statuses[1..]);
      assert FilterBarLabels(statuses) == [FilterBarLabels(statuses)[0]] + FilterBarLabels(statuses[1..]);
    }
  }
}
