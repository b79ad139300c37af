/**
 * The order-management page (`src/pages/Admin.tsx`): the status label table,
 * the three-field search, and the edit form's state (`formData`,
 * `selectedOrder`) as the page's handlers update it. Dates the page computes
 * from the clock are passed in as strings.
 */
module Admin {
  import opened Wrappers
  import opened Lists
  import opened Text
  import opened Types

  /** An entry of `orderStatuses`; `caption` is the source's `label` (a Dafny keyword). */
  datatype StatusOption = StatusOption(value: Status, caption: string)

  /** `orderStatuses`: the display names offered by the status select. */
  const OrderStatuses: seq<StatusOption> := [
    StatusOption(ORDER_APPROVAL, "Order Approval"),
    StatusOption(RENDERING, "Rendering"),
    StatusOption(DYEING, "Dyeing"),
    StatusOption(DYEING_READY, "Dyeing Ready"),
    StatusOption(WAITING_FOR_LOOM, "Waiting for Loom"),
    StatusOption(ONLOOM, "On Loom"),
    StatusOption(ONLOOM_PROGRESS, "On Loom Progress"),
    StatusOption(OFFLOOM, "Off Loom"),
    StatusOption(FINISHING, "Finishing"),
    StatusOption(DELIVERY_TIME, "Ready for Delivery"),
    StatusOption(FIRST_REVISED_DELIVERY_DATE, "First Revised Date"),
    StatusOption(SECOND_REVISED_DELIVERY_DATE, "Second Revised Date")
  ]

  /** The table lists twelve distinct statuses, every `OrderStatus` but YARN_ISSUED, each with a non-empty label. */
  lemma OrderStatusesTable()
    ensures |OrderStatuses| == 12
    ensures forall i, j :: 0 <= i < j < |OrderStatuses| ==> OrderStatuses[i].value != OrderStatuses[j].value
    ensures forall i :: 0 <= i < |OrderStatuses| ==> OrderStatuses[i].caption != ""
    ensures forall s :: (exists e :: e in OrderStatuses && e.value == s) <==> s.InOrderStatusType() && s != YARN_ISSUED
  {
    forall s: Status | s.InOrderStatusType() && s != YARN_ISSUED
      ensures exists e :: e in OrderStatuses && e.value == s
    {
      var i := match s
        case ORDER_APPROVAL => 0
        case RENDERING => 1
        case DYEING => 2
        case DYEING_READY => 3
        case WAITING_FOR_LOOM => 4
        case ONLOOM => 5
        case ONLOOM_PROGRESS => 6
        case OFFLOOM => 7
        case FINISHING => 8
        case DELIVERY_TIME => 9
        case FIRST_REVISED_DELIVERY_DATE => 10
        case _ => 11;
      assert OrderStatuses[i] in OrderStatuses && OrderStatuses[i].value == s;
    }
  }

  /** The status cell: `orderStatuses.find(s => s.value === status)?.label || status`. */
  function StatusLabel(status: Status): (shown: string)
    ensures shown != ""
  {
    match Find((e: StatusOption) => e.value == status, OrderStatuses)
    case Some(e) => if e.caption != "" then e.caption else StatusName(status)
    case None => StatusName(status)
  }

  /** A status in the table shows its table label. */
  lemma StatusLabelFromTable(i: nat)
    requires i < |OrderStatuses|
    ensures StatusLabel(OrderStatuses[i].value) == OrderStatuses[i].caption
  {
    OrderStatusesTable();
    var s := OrderStatuses[i].value;
    var r := Find((e: StatusOption) => e.value == s, OrderStatuses);
    var j :| 0 <= j < |OrderStatuses| && OrderStatuses[j] == r.value && OrderStatuses[j].value == s;
    assert i == j;
  }

  /** A status missing from the table (YARN_ISSUED, or a legacy stage) shows its raw string. */
  lemma StatusLabelFallsBack(status: Status)
    requires forall e :: e in OrderStatuses ==> e.value != status
    ensures StatusLabel(status) == StatusName(status)
  {
  }

  /** The search box: a case-insensitive hit in the order number, the carpet name or the client code. */
  predicate MatchesSearchTerm(o: Order, term: string)
  {
    Includes(Lower(o.orderNumber), Lower(term)) ||
    Includes(Lower(o.carpetName), Lower(term)) ||
    Includes(Lower(o.clientCode), Lower(term))
  }

  /** `filteredOrders`: the orders the search term hits, in their original order. */
  function FilteredOrders(orders: seq<Order>, searchTerm: string): (r: seq<Order>)
    ensures IsSubsequence(r, orders)
    ensures forall o :: o in r <==> o in orders && MatchesSearchTerm(o, searchTerm)
    ensures forall o :: multiset(r)[o] == if MatchesSearchTerm(o, searchTerm) then multiset(orders)[o] else 0
  {
    Filter((o: Order) => MatchesSearchTerm(o, searchTerm), orders)
  }

  /** An order is kept exactly when the lower-cased term occurs in one of its three lower-cased fields. */
  lemma KeptIffSubstring(o: Order, searchTerm: string)
    ensures MatchesSearchTerm(o, searchTerm) <==>
      (exists k :: OccursAt(Lower(o.orderNumber), Lower(searchTerm), k)) ||
      (exists k :: OccursAt(Lower(o.carpetName), Lower(searchTerm), k)) ||
      (exists k :: OccursAt(Lower(o.clientCode), Lower(searchTerm), k))
  {
    IncludesIsSubstring(Lower(o.orderNumber), Lower(searchTerm));
    IncludesIsSubstring(Lower(o.carpetName), Lower(searchTerm));
    IncludesIsSubstring(Lower(o.clientCode), Lower(searchTerm));
  }

  /** An empty search term keeps every order, in order. */
  lemma EmptySearchKeepsAll(orders: seq<Order>)
    ensures FilteredOrders(orders, "") == orders
  {
    forall o | o in orders
      ensures MatchesSearchTerm(o, "")
    {
      IncludesEmpty(Lower(o.orderNumber));
    }
    FilterKeepsAll((o: Order) => MatchesSearchTerm(o, ""), orders);
  }

  /** `formData`: the fields of the add/edit dialog. */
  datatype FormData = FormData(
    carpetNo: string,
    buyerCode: string,
    design: string,
    size: string,
    status: Status,
    orderIssued: string,
    deliveryDate: string)

  /** The fields an update sends, keyed on the selected order's number; there is no Carpetno among them. */
  datatype UpdateRequest = UpdateRequest(
    carpetNoKey: string,
    buyerCode: string,
    design: string,
    size: string,
    status: Status,
    orderIssued: string,
    deliveryDate: string)

  /** The state of the order-management page that its handlers change. */
  class AdminPage {
    var formData: FormData
    var selectedOrder: Option<Order>
    var isEditDialogOpen: bool

    /** The page as first rendered; `today` and `inThirtyDays` are the clock's dates. */
    constructor (today: string, inThirtyDays: string)
      ensures formData == FormData("", "", "", "", ORDER_APPROVAL, today, inThirtyDays)
      ensures selectedOrder == None && !isEditDialogOpen
    {
      formData := FormData("", "", "", "", ORDER_APPROVAL, today, inThirtyDays);
      selectedOrder := None;
      isEditDialogOpen := false;
    }

    /** What `handleUpdateOrder` sends: nothing without a selected order. */
    function PendingUpdate(): (r: Option<UpdateRequest>)
      reads this
      ensures r.None? <==> selectedOrder.None?
      ensures r.Some? ==>
        && r.value.carpetNoKey == selectedOrder.value.orderNumber
        && r.value.buyerCode == formData.buyerCode
        && r.value.design == formData.design
        && r.value.size == formData.size
        && r.value.status == formData.status
        && r.value.orderIssued == formData.orderIssued
        && r.value.deliveryDate == formData.deliveryDate
    {
      match selectedOrder
      case None => None
      case Some(o) =>
        Some(UpdateRequest(o.orderNumber, formData.buyerCode, formData.design, formData.size,
                           formData.status, formData.orderIssued, formData.deliveryDate))
    }

    /** `resetForm`: a blank form with status ORDER_APPROVAL and no selected order. */
    method ResetForm(today: string, inThirtyDays: string)
      modifies this`formData, this`selectedOrder
      ensures formData == FormData("", "", "", "", ORDER_APPROVAL, today, inThirtyDays)
      ensures selectedOrder == None
      ensures PendingUpdate() == None
    {
      formData := FormData("", "", "", "", ORDER_APPROVAL, today, inThirtyDays);
      selectedOrder := None;
    }

    /**
     * `handleEditClick`: selects the order, copies its fields into the form
     * and opens the edit dialog. `issued` and `delivery` are the dates the
     * page derives from the order's first timeline date and estimated
     * completion (or from the clock).
     */
    method HandleEditClick(order: Order, issued: string, delivery: string)
      modifies this
      ensures selectedOrder == Some(order)
      ensures formData == FormData(order.orderNumber, order.clientCode, order.carpetName, order.dimensions,
                                   order.status, issued, delivery)
      ensures isEditDialogOpen
      ensures PendingUpdate() ==
        Some(UpdateRequest(order.orderNumber, order.clientCode, order.carpetName, order.dimensions,
                           order.status, issued, delivery))
    {
      selectedOrder := Some(order);
      formData := FormData(order.orderNumber, order.clientCode, order.carpetName, order.dimensions,
                           order.status, issued, delivery);
      isEditDialogOpen := true;
    }
  }
}
