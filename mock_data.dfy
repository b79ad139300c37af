/**
 * The mock order store of `src/lib/data.ts`: the user and order tables, the
 * timeline builder, the lookups over them and the legacy status labels.
 * Its random dates are parameters: `randomDate(k)` is the date drawn for the
 * k-th timeline entry.
 */
module MockData {
  import opened Wrappers
  import opened Lists
  import opened Types

  /** A date as `toISOString().split('T')[0]` yields it: "YYYY-MM-DD". */
  type IsoDate = s: string | |s| == 10 witness "1970-01-01"

  /** The six legacy production stages, in timeline order. */
  const LegacyStages: seq<Status> := [YARN_ISSUED, DYEING, ISSUED_TO_SUPPLIER, CARPET_RECEIVED, FINISHING, EXPORTED]

  lemma LegacyStagesDistinct()
    ensures Distinct(LegacyStages)
  {
  }

  /**
   * One entry per legacy stage; the entries up to the status's position are
   * completed and dated, the rest are open and undated.
   */
  function CreateOrderTimeline(status: Status, randomDate: nat -> IsoDate): (t: seq<TimelineEntry>)
    ensures |t| == |LegacyStages| == 6
    ensures forall k :: 0 <= k < |t| ==> t[k].stage == LegacyStages[k]
    ensures forall k :: 0 <= k < |t| ==> if t[k].completed then t[k].date != "" else t[k].date == ""
  {
    var current := IndexOf(LegacyStages, status);
    seq(|LegacyStages|, k requires 0 <= k < |LegacyStages| =>
      if k <= current then TimelineEntry(LegacyStages[k], randomDate(k), true)
      else TimelineEntry(LegacyStages[k], "", false))
  }

  /** Entry k is completed exactly when the status is the k-th legacy stage or a later one. */
  lemma TimelineCompletedIffReached(status: Status, randomDate: nat -> IsoDate, k: nat)
    requires k < 6
    ensures CreateOrderTimeline(status, randomDate)[k].completed <==> status in LegacyStages[k..]
  {
    LegacyStagesDistinct();
    IndexOfAtOrAfter(LegacyStages, status, k);
  }

  /** The completed entries form a prefix of the timeline. */
  lemma TimelineCompletedIsPrefix(status: Status, randomDate: nat -> IsoDate)
    ensures var t := CreateOrderTimeline(status, randomDate);
      forall i, j :: 0 <= i <= j < |t| && t[j].completed ==> t[i].completed
  {
  }

  /** The last completed entry of `t` is the one for `status`. */
  ghost predicate EndsAt(t: seq<TimelineEntry>, status: Status)
  {
    exists k :: 0 <= k < |t| && t[k].stage == status && t[k].completed && forall j :: k < j < |t| ==> !t[j].completed
  }

  /** The last completed entry is the order's own status, when it is a legacy stage. */
  lemma TimelineEndsAtStatus(status: Status, randomDate: nat -> IsoDate)
    requires status in LegacyStages
    ensures EndsAt(CreateOrderTimeline(status, randomDate), status)
  {
    var k := IndexOf(LegacyStages, status);
    var t := CreateOrderTimeline(status, randomDate);
    assert t[k].stage == status && t[k].completed;
  }

  /** A status outside the legacy stages (ORDER_APPROVAL, say) completes nothing. */
  lemma TimelineOfUnknownStatus(status: Status, randomDate: nat -> IsoDate)
    requires status !in LegacyStages
    ensures forall e :: e in CreateOrderTimeline(status, randomDate) ==> !e.completed && e.date == ""
  {
  }

  /** The mock users. */
  const Users: seq<User> := [
    User("1", "ws_client", "WS", "Washington Studios", None),
    User("2", "ld_client", "LD", "London Designs", None),
    User("3", "hr_client", "HR", "Himalayan Rugs", None),
    User("4", "demo", "RM", "Royal Mountain", None)
  ]

  /** A row of the mock order table: an order without its generated timeline. */
  datatype OrderRow = OrderRow(
    id: string, clientCode: string, orderNumber: string, carpetName: string, dimensions: string,
    status: Status, hasDelay: bool, delayReason: Option<string>, estimatedCompletion: Option<string>)

  const OrderRows: seq<OrderRow> := [
    OrderRow("1", "WS", "WS-2024-001", "Himalayan Bloom", "8' x 10'", DYEING, false, None, Some("2024-06-15")),
    OrderRow("2", "WS", "WS-2024-002", "Mountain Stream", "6' x 9'", YARN_ISSUED, true,
             Some("Waiting for special silk yarn import"), Some("2024-07-20")),
    OrderRow("3", "LD", "LD-2024-001", "Royal Palace", "12' x 15'", FINISHING, false, None, Some("2024-05-30")),
    OrderRow("4", "LD", "LD-2024-002", "Urban Grid", "9' x 12'", ISSUED_TO_SUPPLIER, false, None, Some("2024-06-30")),
    OrderRow("5", "HR", "HR-2024-001", "Classic Mandala", "10' x 10'", CARPET_RECEIVED, true,
             Some("Pattern adjustment required"), Some("2024-06-10")),
    OrderRow("6", "RM", "RM-2024-001", "Tibetan Clouds", "8' x 10'", EXPORTED, false, None, Some("2024-04-15")),
    OrderRow("7", "RM", "RM-2024-002", "Mountain Peaks", "6' x 9'", FINISHING, false, None, Some("2024-05-25")),
    OrderRow("8", "RM", "RM-2024-003", "Valley Sunset", "9' x 12'", DYEING, true,
             Some("Special color blend development"), Some("2024-07-05"))
  ]

  /** A table row with the timeline `createOrderTimeline(status)` gives it. */
  function WithTimeline(row: OrderRow, randomDate: nat -> IsoDate): Order
  {
    Order(row.id, row.clientCode, row.orderNumber, row.carpetName, row.dimensions, row.status, row.hasDelay,
          row.delayReason, CreateOrderTimeline(row.status, randomDate), row.estimatedCompletion)
  }

  /** `ORDERS`; `dates(i)` supplies the random dates of the i-th order's timeline. */
  function Orders(dates: nat -> nat -> IsoDate): seq<Order>
  {
    seq(|OrderRows|, i requires 0 <= i < |OrderRows| => WithTimeline(OrderRows[i], dates(i)))
  }

  /** Every mock order's timeline is completed up to its own status and no further. */
  lemma {:induction false} MockTimelinesMatchStatus(dates: nat -> nat -> IsoDate)
    ensures forall o :: o in Orders(dates) ==> o.status in LegacyStages && EndsAt(o.timeline, o.status)
  {
    var orders := Orders(dates);
    assert forall row :: row in OrderRows ==> row.status in LegacyStages;
    forall i | 0 <= i < |orders|
      ensures orders[i].status in LegacyStages && EndsAt(orders[i].timeline, orders[i].status)
    {
      assert orders[i] == WithTimeline(OrderRows[i], dates(i));
      assert OrderRows[i] in OrderRows;
      TimelineEndsAtStatus(OrderRows[i].status, dates(i));
    }
  }

  /** The mock rows are numbered "1" to "8". */
  lemma OrderRowIds()
    ensures forall i :: 0 <= i < |OrderRows| ==> OrderRows[i].id == [(i + 49) as char]
  {
  }

  /** No two mock orders share an id. */
  lemma OrderIdsDistinct(dates: nat -> nat -> IsoDate)
    ensures forall i, j :: 0 <= i < j < |Orders(dates)| ==> Orders(dates)[i].id != Orders(dates)[j].id
  {
    OrderRowIds();
    var orders := Orders(dates);
    forall i, j | 0 <= i < j < |orders|
      ensures orders[i].id != orders[j].id
    {
      assert orders[i] == WithTimeline(OrderRows[i], dates(i));
      assert orders[j] == WithTimeline(OrderRows[j], dates(j));
      assert orders[i].id[0] != orders[j].id[0];
    }
  }

  /** `getUser`: the first mock user with that username. */
  function GetUser(username: string): (r: Option<User>)
    ensures r.None? <==> forall u :: u in Users ==> u.username != username
    ensures r.Some? ==> r.value in Users && r.value.username == username
  {
    Find((u: User) => u.username == username, Users)
  }

  /** `validateCredentials`: the password must be the username followed by "_pass". */
  function ValidateCredentials(username: string, password: string): (r: Option<User>)
  {
    if password == username + "_pass" then GetUser(username) else None
  }

  /** A user comes back exactly for a known username with its "_pass" password, and it is that user. */
  lemma ValidateCredentialsExactly(username: string, password: string)
    ensures ValidateCredentials(username, password).Some? <==>
      password == username + "_pass" && exists u :: u in Users && u.username == username
    ensures forall u :: u in Users && u.username == username && password == username + "_pass" ==>
      ValidateCredentials(username, password) == Some(u)
  {
    forall u | u in Users && u.username == username && password == username + "_pass"
      ensures ValidateCredentials(username, password) == Some(u)
    {
      FindTheOnly((x: User) => x.username == username, Users, u);
    }
  }

  /** The demo account signs in with "demo_pass" and with nothing else. */
  lemma DemoCredentials(password: string)
    ensures ValidateCredentials("demo", password) == if password == "demo_pass" then Some(Users[3]) else None
  {
    assert "demo" + "_pass" == "demo_pass";
    ValidateCredentialsExactly("demo", password);
  }

  /** `getOrdersByClient`: the mock orders of one client, in table order. */
  function OrdersByClient(dates: nat -> nat -> IsoDate, clientCode: string): (r: seq<Order>)
    ensures IsSubsequence(r, Orders(dates))
    ensures forall o :: o in r <==> o in Orders(dates) && o.clientCode == clientCode
  {
    Filter((o: Order) => o.clientCode == clientCode, Orders(dates))
  }

  /** `getOrderById`: the mock order with that id, or undefined when none has it. */
  function OrderById(dates: nat -> nat -> IsoDate, orderId: string): (r: Option<Order>)
    ensures r.None? <==> forall o :: o in Orders(dates) ==> o.id != orderId
    ensures forall o :: o in Orders(dates) && o.id == orderId ==> r == Some(o)
  {
    var orders := Orders(dates);
    OrderIdsDistinct(dates);
    var r := Find((o: Order) => o.id == orderId, orders);
    assert forall o :: o in orders && o.id == orderId ==> r == Some(o) by {
      forall o | o in orders && o.id == orderId
        ensures r == Some(o)
      {
        FindTheOnly((o: Order) => o.id == orderId, orders, o);
      }
    }
    r
  }

  /** The label (`caption`, as `label` is a Dafny keyword), colour and description of a legacy stage. */
  datatype DisplayInfo = DisplayInfo(caption: string, color: string, description: string)

  /** `getStatusDisplayInfo`: defined for the six legacy stages only. */
  function StatusDisplayInfo(status: Status): (r: Option<DisplayInfo>)
    ensures r.Some? <==> status in LegacyStages
    ensures r.Some? ==> r.value.caption != ""
  {
    match status
    case YARN_ISSUED =>
      Some(DisplayInfo("Yarn Issued", "blue", "Raw materials have been selected and issued for production."))
    case DYEING =>
      Some(DisplayInfo("Dyeing", "purple", "Yarn is being dyed according to the color specifications."))
    case ISSUED_TO_SUPPLIER =>
      Some(DisplayInfo("Issued to Supplier", "yellow", "Materials have been sent to the weaving facility."))
    case CARPET_RECEIVED =>
      Some(DisplayInfo("Carpet Received", "green", "The woven carpet has been received from the supplier."))
    case FINISHING =>
      Some(DisplayInfo("Finishing", "gold", "The carpet is undergoing final finishing touches."))
    case EXPORTED =>
      Some(DisplayInfo("Exported", "red", "The carpet has been shipped and is on its way to you."))
    case _ => None
  }

  /** Of the thirteen `OrderStatus` values only three have display information. */
  lemma DisplayInfoOnOrderStatusType(status: Status)
    requires status.InOrderStatusType()
    ensures StatusDisplayInfo(status).Some? <==> status == YARN_ISSUED || status == DYEING || status == FINISHING
  {
  }
}
