/** The portal's records: order statuses, timeline entries, orders and users. */
module Types {
  import opened Wrappers

  /**
   * Every status string the code uses. The first thirteen form the
   * `OrderStatus` union; the last three are the legacy stages the mock store
   * still uses although the union no longer lists them.
   */
  datatype Status =
    | ORDER_APPROVAL | YARN_ISSUED | RENDERING | DYEING | DYEING_READY
    | WAITING_FOR_LOOM | ONLOOM | ONLOOM_PROGRESS | OFFLOOM | FINISHING
    | DELIVERY_TIME | FIRST_REVISED_DELIVERY_DATE | SECOND_REVISED_DELIVERY_DATE
    | ISSUED_TO_SUPPLIER | CARPET_RECEIVED | EXPORTED
  {
    /** Whether the status is a member of the `OrderStatus` union. */
    predicate InOrderStatusType()
    {
      !(ISSUED_TO_SUPPLIER? || CARPET_RECEIVED? || EXPORTED?)
    }
  }

  /** Every status value once. */
  const AllStatuses: seq<Status> := [
    ORDER_APPROVAL, YARN_ISSUED, RENDERING, DYEING, DYEING_READY,
    WAITING_FOR_LOOM, ONLOOM, ONLOOM_PROGRESS, OFFLOOM, FINISHING,
    DELIVERY_TIME, FIRST_REVISED_DELIVERY_DATE, SECOND_REVISED_DELIVERY_DATE,
    ISSUED_TO_SUPPLIER, CARPET_RECEIVED, EXPORTED
  ]

  lemma AllStatusesDistinct()
    ensures forall i, j :: 0 <= i < j < |AllStatuses| ==> AllStatuses[i] != AllStatuses[j]
  {
  }

  lemma AllStatusesComplete()
    ensures forall s :: s in AllStatuses
  {
    forall s: Status
      ensures s in AllStatuses
    {
      match s
      case ORDER_APPROVAL => assert AllStatuses[0] == s;
      case YARN_ISSUED => assert AllStatuses[1] == s;
      case RENDERING => assert AllStatuses[2] == s;
      case DYEING => assert AllStatuses[3] == s;
      case DYEING_READY => assert AllStatuses[4] == s;
      case WAITING_FOR_LOOM => assert AllStatuses[5] == s;
      case ONLOOM => assert AllStatuses[6] == s;
      case ONLOOM_PROGRESS => assert AllStatuses[7] == s;
      case OFFLOOM => assert AllStatuses[8] == s;
      case FINISHING => assert AllStatuses[9] == s;
      case DELIVERY_TIME => assert AllStatuses[10] == s;
      case FIRST_REVISED_DELIVERY_DATE => assert AllStatuses[11] == s;
      case SECOND_REVISED_DELIVERY_DATE => assert AllStatuses[12] == s;
      case ISSUED_TO_SUPPLIER => assert AllStatuses[13] == s;
      case CARPET_RECEIVED => assert AllStatuses[14] == s;
      case EXPORTED => assert AllStatuses[15] == s;
    }
  }

  /** The raw string a status is stored as. */
  function StatusName(s: Status): (name: string)
    ensures name != ""
  {
    match s
    case ORDER_APPROVAL => "ORDER_APPROVAL"
    case YARN_ISSUED => "YARN_ISSUED"
    case RENDERING => "RENDERING"
    case DYEING => "DYEING"
    case DYEING_READY => "DYEING_READY"
    case WAITING_FOR_LOOM => "WAITING_FOR_LOOM"
    case ONLOOM => "ONLOOM"
    case ONLOOM_PROGRESS => "ONLOOM_PROGRESS"
    case OFFLOOM => "OFFLOOM"
    case FINISHING => "FINISHING"
    case DELIVERY_TIME => "DELIVERY_TIME"
    case FIRST_REVISED_DELIVERY_DATE => "FIRST_REVISED_DELIVERY_DATE"
    case SECOND_REVISED_DELIVERY_DATE => "SECOND_REVISED_DELIVERY_DATE"
    case ISSUED_TO_SUPPLIER => "ISSUED_TO_SUPPLIER"
    case CARPET_RECEIVED => "CARPET_RECEIVED"
    case EXPORTED => "EXPORTED"
  }

  /** One step of an order's production timeline; `date` is "" when unset. */
  datatype TimelineEntry = TimelineEntry(stage: Status, date: string, completed: bool)

  /** A carpet order as the pages receive it. */
  datatype Order = Order(
    id: string,
    clientCode: string,
    orderNumber: string,
    carpetName: string,
    dimensions: string,
    status: Status,
    hasDelay: bool,
    delayReason: Option<string>,
    timeline: seq<TimelineEntry>,
    estimatedCompletion: Option<string>)

  /** A signed-in (or mock) user; the mock table's users carry no role. */
  datatype User = User(id: string, username: string, clientCode: string, clientName: string, role: Option<string>)
}
