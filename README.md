# Carpet order tracker: the portal's list and record rules

This project models the logic of a client-facing order-tracking portal for a
carpet manufacturer. Clients sign in to follow their orders through production,
and an administrator manages the order records. The model covers:

- **The mock order store** (`src/lib/data.ts`). It holds the user and order
  tables. `createOrderTimeline` builds a six-stage timeline whose completed
  entries form a prefix. `getUser`, `validateCredentials`, `getOrdersByClient`
  and `getOrderById` look things up. `getStatusDisplayInfo` is a partial
  label table.
- **The client dashboard** (`src/pages/Dashboard.tsx`). It has the search and
  status filter, the per-status count table (a `reduce` over a dictionary,
  modelled as a loop over a `map`), the delay count, the "In Production"
  figure and the filter bar's labels.
- **The order-management page** (`src/pages/Admin.tsx`). It has the status
  label table, the three-field case-insensitive search, and the edit form's
  state as `resetForm` and `handleEditClick` change it. That state is a class
  with fields `formData`, `selectedOrder` and `isEditDialogOpen`.
- **Sign-in** (`src/contexts/AuthContext.tsx`). The rule decides between
  administrator, client and rejection from the buyer codes read so far. It
  then builds the `User` record. `login` and `logout` update the provider's
  `user` and `isLoading` fields.

Modules follow the source files: `MockData`, `Dashboard`, `Admin`, `Auth`.
Four small modules serve them:

- `Wrappers` (the `Option` type, standing for a value or `undefined` or `null`)
- `Types` (the records of `src/types/index.ts`)
- `Lists` (`filter`, `find`, `indexOf` and `[...new Set(..)]`, each proved
  against an independent description, and the first-match search that `find`
  and `indexOf` share)
- `Text` (ASCII lower-casing and `includes`, proved to be a substring test).

The `Status` datatype has sixteen values. Thirteen are the `OrderStatus` union;
`InOrderStatusType()` picks these out. The other three are `ISSUED_TO_SUPPLIER`,
`CARPET_RECEIVED` and `EXPORTED`. The mock store uses them as legacy stages,
but the union does not list them. So the store's six-stage vocabulary and the
pages' twelve-stage vocabulary are both modelled as written. Only three union
values have display information: `YARN_ISSUED`, `DYEING` and `FINISHING`. The
other ten union values get `undefined` from `getStatusDisplayInfo`.

The field `label` is called `caption` in the model, because `label` is a Dafny
keyword.

The code has no status normaliser and no date interpolation. Its only
timeline builder is `createOrderTimeline`, and it does no date arithmetic
between an issue date and a delivery date.

Inputs stand in for I/O:

- Orders fetched from the hosted database are sequences of `Order` passed in.
- The `Buyercode` column read at sign-in is an `Option<seq<Option<string>>>`.
  None means the query returned no data.
- Random timeline dates are a function from entry position to a date string.
- Clock dates in the admin form are string parameters.

## Model

| member | source | states |
|---|---|---|
| `Types.AllStatusesComplete` | src/types/index.ts:23-36 | the status list holds every status value, the thirteen of the union and the three legacy-only stages |
| `MockData.LegacyStagesDistinct` | src/lib/data.ts:21-28 | the six legacy stages are pairwise distinct |
| `MockData.CreateOrderTimeline` | src/lib/data.ts:16-47 | exactly six entries, in the order YARN_ISSUED, DYEING, ISSUED_TO_SUPPLIER, CARPET_RECEIVED, FINISHING, EXPORTED; a completed entry has a non-empty date, an open one has date "" |
| `MockData.TimelineCompletedIffReached` | src/lib/data.ts:30-33 | entry k is completed exactly when the status is the k-th legacy stage or a later one |
| `MockData.TimelineCompletedIsPrefix` | src/lib/data.ts:30-46 | the completed entries form a contiguous prefix |
| `MockData.TimelineEndsAtStatus` | src/lib/data.ts:30-38 | for a legacy status, the last completed entry is the one whose stage is that status |
| `MockData.TimelineOfUnknownStatus` | src/lib/data.ts:30-33 | a status that `indexOf` does not find (ORDER_APPROVAL, say) yields no completed entry and no date |
| `MockData.MockTimelinesMatchStatus` | src/lib/data.ts:49-141 | every mock order has a legacy status, and its timeline is completed up to that status and no further |
| `MockData.OrderIdsDistinct` | src/lib/data.ts:49-141 | the mock orders' ids are pairwise distinct |
| `MockData.GetUser` | src/lib/data.ts:143-145 | undefined exactly when no mock user has the username; otherwise a mock user with that username |
| `MockData.ValidateCredentialsExactly` | src/lib/data.ts:147-155 | a user comes back iff the password is the username followed by "_pass" and a user with that username exists, and then it is that user |
| `MockData.DemoCredentials` | src/lib/data.ts:4-9 | "demo" signs in with "demo_pass" as Royal Mountain and with no other password |
| `MockData.OrdersByClient` | src/lib/data.ts:157-159 | the result is an order-preserving subsequence of the mock orders and holds exactly those with the client code |
| `MockData.OrderById` | src/lib/data.ts:161-163 | undefined iff no mock order has the id; otherwise the mock order with that id |
| `MockData.StatusDisplayInfo` | src/lib/data.ts:165-204 | a record, with a non-empty label, exactly for the six legacy stages; undefined for every other status |
| `MockData.DisplayInfoOnOrderStatusType` | src/lib/data.ts:165-204 | of the thirteen union values only YARN_ISSUED, DYEING and FINISHING have display information |
| `Lists.Filter` | src/lib/data.ts:158 | `filter` returns an order-preserving subsequence that keeps every occurrence of each passing element and no failing one; it has the input's length iff every element passes |
| `Lists.FilterKeepsAll` | src/pages/Dashboard.tsx:89-97 | a filter every element passes returns its input unchanged |
| `Lists.FindIndex` | src/lib/data.ts:144 | the first-match search: -1 iff no element passes, else the first position that passes; `find` (data.ts:144) returns the element at that position and `indexOf` (data.ts:30) returns the position itself |
| `Lists.Find` | src/lib/data.ts:162 | `find` returns undefined iff no element passes, else the element at the first passing position |
| `Lists.IndexOf` | src/lib/data.ts:30 | `indexOf` returns -1 iff the value is absent, else the first position holding it |
| `Lists.IndexOfAtOrAfter` | src/lib/data.ts:30-33 | in a repeat-free list, `indexOf(x) >= k` iff x occurs at position k or later |
| `Lists.Dedup` | src/contexts/AuthContext.tsx:62 | `[...new Set(xs)]` has no repeats and holds exactly the elements of xs |
| `Text.IncludesIsSubstring` | src/pages/Admin.tsx:102-104 | `includes` holds iff the needle occurs in the string at some offset |
| `Dashboard.StatusListContents` | src/pages/Dashboard.tsx:16-29 | twelve distinct statuses: every `OrderStatus` except YARN_ISSUED |
| `Dashboard.FilteredOrders` | src/pages/Dashboard.tsx:89-97 | an order-preserving subsequence of the client's orders that keeps every occurrence of each order passing both the search and the status filter, and nothing else |
| `Dashboard.NoFilterShowsAll` | src/pages/Dashboard.tsx:89-97 | with an empty query and "ALL", the filtered list is the client's orders |
| `Dashboard.StatusFilterShowsOnlyThatStatus` | src/pages/Dashboard.tsx:94 | with one status selected, every order shown has that status |
| `Dashboard.SearchIsSubstringOfNumberOrName` | src/pages/Dashboard.tsx:90-92 | an order matches iff the query is empty or its lower-cased form occurs in the lower-cased order number or carpet name; the client code never affects the match |
| `Dashboard.StatusCounts` | src/pages/Dashboard.tsx:99-102 | the count map has a key exactly for each status present, holding how many orders have it; an absent status reads as 0 |
| `Dashboard.StatusCountsSumToTotal` | src/pages/Dashboard.tsx:99-104 | the counts, read for every status, add up to the number of orders |
| `Dashboard.OrdersWithDelay` | src/pages/Dashboard.tsx:104-105 | the number of delayed orders, counted one by one; so at most the total, and equal to it iff every order is delayed |
| `Dashboard.DelayedFilterLength` | src/pages/Dashboard.tsx:105 | filtering by the delay flag keeps exactly as many orders as are delayed |
| `Dashboard.InProductionIsRest` | src/pages/Dashboard.tsx:284-287 | "In Production" is the total less the FINISHING count, and never negative |
| `Dashboard.FilterBarAsWrittenNeedsLegacyStages` | src/pages/Dashboard.tsx:313-314 | the filter bar as written yields labels iff every status in it has display information |
| `Dashboard.FilterBarAsWrittenThrows` | src/pages/Dashboard.tsx:313-314 | for the dashboard's own list the bar as written yields nothing: its first status, ORDER_APPROVAL, has no display information |
| `Dashboard.FilterBarLabels` | src/pages/Dashboard.tsx:313-324 | the corrected bar gives one non-empty label per status: the display label where there is one, else the raw status string |
| `Dashboard.FilterBarLabelsAgree` | src/pages/Dashboard.tsx:313-324 | wherever the bar as written yields labels, the corrected bar yields the same ones |
| `Admin.OrderStatusesTable` | src/pages/Admin.tsx:63-76 | twelve entries with distinct values and non-empty labels; their values are every `OrderStatus` except YARN_ISSUED |
| `Admin.StatusLabel` | src/pages/Admin.tsx:398 | the status cell is never empty |
| `Admin.StatusLabelFromTable` | src/pages/Admin.tsx:398 | a status in the table shows that entry's label |
| `Admin.StatusLabelFallsBack` | src/pages/Admin.tsx:398 | a status missing from the table (YARN_ISSUED, a legacy stage) shows its raw string |
| `Admin.FilteredOrders` | src/pages/Admin.tsx:100-106 | an order-preserving subsequence of the orders that keeps every occurrence of each order the search term hits, and nothing else |
| `Admin.KeptIffSubstring` | src/pages/Admin.tsx:101-105 | an order is kept iff the lower-cased term occurs in the lower-cased order number, carpet name or client code |
| `Admin.EmptySearchKeepsAll` | src/pages/Admin.tsx:100-106 | an empty search term keeps every order, in order |
| `Admin.AdminPage.constructor` | src/pages/Admin.tsx:48-60 | the page starts with a blank form at ORDER_APPROVAL, no selected order and the edit dialog closed |
| `Admin.AdminPage.PendingUpdate` | src/pages/Admin.tsx:146-160 | no update without a selected order; otherwise the update is keyed on the selected order's number and carries the form's Buyercode, Design, Size, STATUS, Order issued and Delivery Date, never Carpetno |
| `Admin.AdminPage.ResetForm` | src/pages/Admin.tsx:228-239 | Carpetno, Buyercode, Design and Size become "", STATUS becomes ORDER_APPROVAL, the dates become the given clock dates, the selection is cleared, and nothing would be updated |
| `Admin.AdminPage.HandleEditClick` | src/pages/Admin.tsx:213-225 | selects the order, copies orderNumber, clientCode, carpetName, dimensions and status into the form, opens the edit dialog; a save would then be keyed on that order's number with its own fields |
| `Auth.ValidClientCodes` | src/contexts/AuthContext.tsx:62 | each truthy buyer code exactly once, nothing else; empty when the query returned no data |
| `Auth.AdminAcceptedWithoutCodes` | src/contexts/AuthContext.tsx:71-83 | "admin" in any case with password "admin123" signs in as the administrator (id admin1, client code TC, role admin, name System Administrator), whatever the buyer codes are |
| `Auth.NonAdminAcceptedIffClient` | src/contexts/AuthContext.tsx:62-83 | any other login is accepted iff some truthy buyer code equals the username ignoring case and the password is "password" or "PASSWORD"; the user is then the client user_<username> with client code <username> and name "<username> Client" |
| `Auth.RoleReflectsLogin` | src/contexts/AuthContext.tsx:77-83 | a signed-in user has role admin iff the administrator rule held, and keeps the username as typed |
| `Auth.AdminNameWithClientPassword` | src/contexts/AuthContext.tsx:66-83 | "Admin" with "password" signs in as a client when "admin" is a buyer code, and is rejected when it is not |
| `Auth.AuthState.constructor` | src/contexts/AuthContext.tsx:19-20 | the provider starts with no user and loading |
| `Auth.AuthState.Login` | src/contexts/AuthContext.tsx:45-115 | finishes not loading; returns true iff the sign-in rule accepts, and then the user is the constructed one; on rejection the user is unchanged |
| `Auth.AuthState.Logout` | src/contexts/AuthContext.tsx:117-133 | nobody is signed in afterwards |

## Findings

| source | as written | input that shows it | evidently intended | confidence | as-written member | corrected member |
|---|---|---|---|---|---|---|
| src/pages/Dashboard.tsx:313-314 | each filter button destructures `label` from `getStatusDisplayInfo(status)`, which is undefined for 10 of the 12 `STATUS_LIST` entries, so the destructuring throws a TypeError | status ORDER_APPROVAL, the first button | every filter button shows a label | medium, not executed: the dashboard imports `getAllOrders`, which the `src/lib/data.ts` modelled here does not define, so the label table it runs against may be a later one | `Dashboard.FilterBarAsWrittenThrows` | `Dashboard.FilterBarLabels` |

## Left out

- All calls to the hosted database: the order queries, the login's `Buyercode` query, and the insert, update and delete of the admin page. Their results are inputs. `Admin.AdminPage.PendingUpdate` stands for what an update sends. Because of this, the flow after a successful save (close the dialog, reset the form, refetch) is left out, and so is `handleAddOrder`'s insert.
- `getAllOrders`, which the two pages import, is not part of this model: the pages import it from `@/lib/data` (`src/pages/Dashboard.tsx:8`, `src/pages/Admin.tsx:7`), but the `src/lib/data.ts` modelled here does not define it. The pages' order lists are inputs.
- Wall-clock and random dates (`new Date()`, `Math.random`, `toISOString`, `toLocaleDateString`). Completed timeline entries take a caller-supplied date string of ten characters. The model makes no claim that these dates are ordered, because each is drawn on its own.
- Admin.AdminPage.HandleEditClick: the "Order issued" and "Delivery Date" fields are parameters. The model does not compute them from the order's first timeline date or estimated completion, because that needs date parsing and the clock. The model also does not capture the case where `toISOString` throws a RangeError on a non-empty first timeline date or `estimatedCompletion` that does not parse (`src/pages/Admin.tsx:221-222`): the order is then selected, but the form and the edit dialog stay as they were.
- Unicode `toLowerCase`. Lower-casing is ASCII only.
- The `ClientCode` union is not enforced. Client codes are strings, because sign-in stores the username itself as the client code.
- The mock users in `src/lib/data.ts` have no role, so `role` is an `Option<string>`.
- Auth.AuthState.Login: the `catch` branch, which runs when the database client, `localStorage.setItem` or a toast throws, is not modelled. When `localStorage.setItem` throws (`src/contexts/AuthContext.tsx:86`), `setUser` has already run on line 85, so the source returns false with the user already signed in; the model does not capture this. Nothing in the model throws.
- `localStorage` session persistence (`checkExistingSession`), toasts, console logging, `setTimeout`, and the `isAddDialogOpen` flag: these are side effects with no logic.
- `requestPasswordReset` and `resetPassword`. They are mocks that always report success.
- The presentational components and pages (Index, Login, Header, OrderCard, StatusBadge, StatusTimeline, OrderDetail, ProtectedRoute), the admin status colour ternary, and all markup.
