# Property listing store — a Dafny model

This project models the core of a small property listing service. The core is an
in-memory store of property records (`PropertyManager` in services.py). It has a
search and shortlist layer on top (`PropertySearch`). Two route handlers in
routes.py add a little logic of their own: they page the search result and
project each record to the view callers see.

- `services.dfy` (module `Services`)
  - `Property` is a class. Its id, owner, details and timestamp never change.
    Its `status` and `shortlistedBy` are updated in place.
  - `PropertyManager` is a class with three fields:
    - the `properties` map from id to record;
    - `order`, the ids in insertion order, which is the order in which the
      source's dictionary is iterated;
    - the `userPortfolios` map from owner to the ids they created.
  - `Valid()` is the store invariant. Every record is stored under its own id
    and appears once in `order`. Each portfolio holds exactly its owner's ids,
    each once. Every price is positive. No user is on a shortlist twice.
  - `AddProperty` and `UpdatePropertyStatus` state the whole new state.
    `GetUserProperties` is a function, as the source's comprehension is.
  - `PropertySearch` holds the manager.
    - `SearchProperties` and `GetShortlisted` are loops. Each is proved equal
      to a ghost filter over the records in iteration order (`Matching`,
      `ShortlistedFor`).
    - Lemmas state what those filters contain and that they keep the scan order.
    - `ShortlistProperty` is the check-then-append on a record's shortlist.
  - Failures are the datatype `Error = NotFound | Unauthorized |
    AlreadyShortlisted` inside `Result<T>`.
  - Three client methods, `OwnershipScenario`, `ShortlistScenario` and
    `ShortlistListingScenario`, walk through ownership, search and shortlist
    scenarios using only the contracts.
- `routes.dfy` (module `Routes`)
  - 1-indexed pagination with Python's clipping slice semantics.
  - The distinct 404 replies for an empty search result and for an empty
    shortlist listing.
  - The projection `{property_id, details, status}`.
  - The two handlers, which call the services.
  - Two client methods, `EmptySearchScenario` and `EmptyShortlistScenario`,
    show from the contracts alone that each handler gives its own 404.

Two facts about the code shape the model:

- Only `shortlist_property` takes the store's lock (services.py:62). Creation
  and status updates do not. Locks are not modelled; every operation is one
  atomic step.
- `shortlisted_by` is a list that refuses a user already on it
  (services.py:68-70). The model keeps a sequence and proves it has no
  duplicates.

## Model

| member | source | states |
|---|---|---|
| `Services.MatchCriteria` | services.py:81-102 | A property matches iff each criterion that is given holds: `price >= min_price`, `price <= max_price`, equal location, equal type. A criterion that is missing, `0` or `""` imposes nothing. |
| `Services.MatchingMembers` | services.py:54-59 | A record is in the search result iff it was scanned and it matches the criteria. |
| `Services.MatchingIsSubsequence` | services.py:54-59 | The search result is a subsequence of the scan order. |
| `Services.MatchingWithoutCriteria` | services.py:81-102 | With no criterion given, the search keeps every record in scan order, whatever its status. |
| `Services.ShortlistedForIsSubsequence` | services.py:73-79 | The shortlist listing is a subsequence of the scan order. |
| `Services.ShortlistedForMembers` | services.py:73-79 | A record is in the shortlist listing iff it was scanned, the user is on its shortlist and its status is `"available"`. |
| `Services.Property.constructor` | services.py:8-14 | A new record has the given id, owner, details and timestamp. Its status is `"available"` and its shortlist is empty. |
| `Services.InsertKeepsTables` | services.py:22-31 | Inserting a record under an unused id keeps the tables consistent. The id is appended to `order` and to its owner's portfolio, and a missing portfolio starts empty. |
| `Services.InsertKeepsRecords` | services.py:22-25 | Storing one more record whose price is positive and whose shortlist has no duplicates keeps every record valid; a new record qualifies, as its shortlist is empty. |
| `Services.PropertyManager.constructor` | services.py:17-20 | The store starts empty and valid. |
| `Services.PropertyManager.StoredIsEveryRecord` | services.py:56 | Iterating the store visits every record exactly once. |
| `Services.PropertyManager.AddProperty` | services.py:22-31 | Returns an id that was not stored before. The new record has the given owner and details, status `"available"` and an empty shortlist. Every old entry is unchanged. The id goes at the end of the iteration order and of the owner's portfolio; other portfolios are unchanged. The invariant is kept. |
| `Services.PropertyManager.UpdatePropertyStatus` | services.py:33-40 | An unknown id gives `NotFound`, whoever the caller is. A caller who is not the owner gets `Unauthorized`. Both failures leave everything unchanged. Otherwise the call returns `Ok(true)` and only that record's status changes, to the given string. |
| `Services.PropertyManager.AvailableAmongMembers` | services.py:44-48 | The comprehension keeps exactly the listed records whose status is `"available"`. |
| `Services.PropertyManager.AvailableAmongInOrder` | services.py:44-48 | The comprehension keeps the portfolio order. |
| `Services.PropertyManager.GetUserProperties` | services.py:42-48 | Returns exactly the stored records owned by the user whose status is `"available"`, in portfolio order: the result is a subsequence of the portfolio's records. An unknown owner gives the empty sequence. |
| `Services.PropertySearch.constructor` | services.py:50-52 | The search layer works on the given store. |
| `Services.PropertySearch.SearchProperties` | services.py:54-59 | The loop returns exactly the matching records, in iteration order. |
| `Services.PropertySearch.SearchFindsExactly` | services.py:54-59 | A record is in the search result iff it is stored and matches. No status filter is applied. |
| `Services.PropertySearch.ShortlistProperty` | services.py:61-71 | An unknown id gives `NotFound`. A user already on the shortlist gets `AlreadyShortlisted`, with nothing changed. Otherwise the user is appended once, the status is untouched and the call returns `Ok(true)`. The no-duplicates invariant is kept. |
| `Services.PropertySearch.ShortlistedExactly` | services.py:73-79 | The shortlist listing holds a stored record exactly while the user is on its shortlist and its status is `"available"`. |
| `Services.PropertySearch.GetShortlisted` | services.py:73-79 | The loop returns exactly the user's available shortlisted records, in iteration order. |
| `Routes.ProjectAll` | routes.py:45-48 | Each result item is the projection `{property_id, details, status}` of the record at the same position. |
| `Routes.Paginate` | routes.py:41-43 | The page is the contiguous run of results starting at `(page-1)*limit`. It holds at most `limit` items and is shorter only at the end of the results. A page past the end is empty. |
| `Routes.PageOfResult` | routes.py:41-43 | Result `i` (from 0) appears on page `i / limit + 1`, at position `i % limit`. |
| `Routes.SearchReply` | routes.py:38-50 | An empty full result, and only that, gives 404 "No properties found matching criteria", whatever `page` and `limit` are. Otherwise `total` is the length of the full result. The items are the projections of the results from `(page-1)*limit` on, in order. There are `limit` of them, or fewer only when the results run out first. A page past the end is an empty list, not an error. |
| `Routes.ShortlistedReply` | routes.py:62-69 | An empty listing, and only that, gives 404 "No shortlisted properties found". Otherwise the whole listing is projected, unpaginated, in order. |
| `Routes.SearchPropertiesRoute` | routes.py:28-50 | Builds the criteria from the query parameters, runs the search and replies with the page of the full result. |
| `Routes.GetShortlistedPropertiesRoute` | routes.py:60-69 | Replies with the user's shortlist listing, or with the 404 when it is empty. |

## Left out

- FastAPI routing, query-parameter defaults and the re-raising of exceptions (routes.py:10-26, 52-58) are transport glue. So are the HTTP statuses and messages the services attach to their failures (404, 403 and 400 at services.py:36, 38, 65 and 69); the model keeps only which failure occurs. The create, status-update and shortlist handlers only forward to the services, which are modelled.
- The `ValidationError` handler in `create_property` (routes.py:17) is not modelled. The name is never imported, and validation fails before the handler runs, so that branch has no behaviour.
- The pydantic schema (models.py) is kept only as the precondition `details.price > 0` of `AddProperty` (models.py:7). The search handler's query validation (`gt=0` at routes.py:29-31) becomes the preconditions of `SearchPropertiesRoute`.
- `threading.Lock` is not modelled. Operations are sequential and atomic.
- `uuid.uuid4()` is replaced by an id the caller supplies, with the precondition that it is not yet stored. `datetime.now()` is replaced by a `now` parameter.
- Prices are `int`, not float. Only `<`, `>` and equality are used on them.
- The details dictionary is the record `Details` and is not shared with the caller. The source stores the caller's dictionary by reference; the route always passes a fresh one.
- `shortlisted_by` is a field of `Property`, so it is not a key inside the details. A record never shortlisted has an empty shortlist, where the source has no key. Both mean that nobody shortlisted it.
- test_api.py is not modelled. It goes through a module-level store over HTTP. The scenario methods replay its checks of status updates and their two failures, search, shortlisting and its duplicate failure, the shortlist listing, and the two 404 replies for an empty search result and an empty shortlist listing. The 422 for a negative price (test_api.py:31-40) is rejected before any handler runs; the model has it only as the `details.price > 0` precondition of `AddProperty`.
