/**
 * The in-memory property store (services.py): `PropertyManager` owns the
 * property records and the per-owner portfolios, `PropertySearch` scans the
 * store for search results and keeps the per-property shortlists.
 */
module Services {

  datatype Option<T> = None | Some(value: T)

  /** The attributes validated at creation (models.py). The source keeps
      `shortlisted_by` in the same dictionary; here it is a field of Property. */
  datatype Details = Details(location: string, price: int, propertyType: string,
                             description: string, amenities: seq<string>)

  /** The failures the services raise. */
  datatype Error = NotFound | Unauthorized | AlreadyShortlisted

  datatype Result<T> = Ok(value: T) | Err(error: Error)

  /** Search criteria; each one may be missing. */
  datatype Criteria = Criteria(minPrice: Option<int>, maxPrice: Option<int>,
                               location: Option<string>, propertyType: Option<string>)

  /** The status a new property has, and the one listings filter on. */
  const Available := "available"

  predicate Distinct<T(==)>(s: seq<T>)
  {
    forall i, j :: 0 <= i < j < |s| ==> s[i] != s[j]
  }

  /** `xs` is `ys` with some elements left out, the rest kept in order. */
  ghost predicate IsSubsequence<T>(xs: seq<T>, ys: seq<T>)
    decreases |ys|
  {
    || xs == []
    || (&& ys != []
        && ((xs[|xs| - 1] == ys[|ys| - 1] && IsSubsequence(xs[..|xs| - 1], ys[..|ys| - 1]))
            || IsSubsequence(xs, ys[..|ys| - 1])))
  }

  // ---------------------------------------------------------------------
  // Criteria

  /** A numeric criterion constrains only when it is truthy: present and not 0. */
  predicate PriceGiven(c: Option<int>)
  {
    c.Some? && c.value != 0
  }

  /** A text criterion constrains only when it is truthy: present and not "". */
  predicate TextGiven(c: Option<string>)
  {
    c.Some? && c.value != ""
  }

  /** `_match_criteria`: each criterion is tested in turn and the first one
      that fails rejects the property. */
  function MatchCriteria(p: Property, c: Criteria): (matched: bool)
    ensures matched <==>
      && (PriceGiven(c.minPrice) ==> p.details.price >= c.minPrice.value)
      && (PriceGiven(c.maxPrice) ==> p.details.price <= c.maxPrice.value)
      && (TextGiven(c.location) ==> p.details.location == c.location.value)
      && (TextGiven(c.propertyType) ==> p.details.propertyType == c.propertyType.value)
  {
    if PriceGiven(c.minPrice) && p.details.price < c.minPrice.value then false
    else if PriceGiven(c.maxPrice) && p.details.price > c.maxPrice.value then false
    else if TextGiven(c.location) && p.details.location != c.location.value then false
    else if TextGiven(c.propertyType) && p.details.propertyType != c.propertyType.value then false
    else true
  }

  // ---------------------------------------------------------------------
  // Specifications of the scans, in scan order

  /** The properties of `ps` that satisfy `c`, in the order of `ps`. */
  ghost function Matching(ps: seq<Property>, c: Criteria): (r: seq<Property>)
    ensures |r| <= |ps|
  {
    if ps == [] then []
    else
      var rest := Matching(ps[..|ps| - 1], c);
      if MatchCriteria(ps[|ps| - 1], c) then rest + [ps[|ps| - 1]] else rest
  }

  /** The properties of `ps` that `userId` shortlisted and that are still available. */
  ghost function ShortlistedFor(ps: seq<Property>, userId: string): (r: seq<Property>)
    reads ps
    ensures |r| <= |ps|
  {
    if ps == [] then []
    else
      var rest := ShortlistedFor(ps[..|ps| - 1], userId);
      var p := ps[|ps| - 1];
      if userId in p.shortlistedBy && p.status == Available then rest + [p] else rest
  }

  /** A property is in the search result exactly when it is scanned and
      matches. */
  lemma {:induction false} MatchingMembers(ps: seq<Property>, c: Criteria, p: Property)
    ensures p in Matching(ps, c) <==> p in ps && MatchCriteria(p, c)
  {
    if ps != [] {
      MatchingMembers(ps[..|ps| - 1], c, p);
      assert ps == ps[..|ps| - 1] + [ps[|ps| - 1]];
    }
  }

  /** The search result keeps the scan order. */
  lemma {:induction false} MatchingIsSubsequence(ps: seq<Property>, c: Criteria)
    ensures IsSubsequence(Matching(ps, c), ps)
  {
    if ps != [] {
      var init := ps[..|ps| - 1];
      MatchingIsSubsequence(init, c);
      var rest := Matching(init, c);
      if MatchCriteria(ps[|ps| - 1], c) {
        assert (rest + [ps[|ps| - 1]])[..|rest|] == rest;
      }
    }
  }

  /** Criteria that are all missing (or falsy) keep every property, whatever
      its status. */
  lemma {:induction false} MatchingWithoutCriteria(ps: seq<Property>, c: Criteria)
    requires !PriceGiven(c.minPrice) && !PriceGiven(c.maxPrice)
    requires !TextGiven(c.location) && !TextGiven(c.propertyType)
    ensures Matching(ps, c) == ps
  {
    if ps != [] {
      MatchingWithoutCriteria(ps[..|ps| - 1], c);
      assert ps == ps[..|ps| - 1] + [ps[|ps| - 1]];
    }
  }

  /** A property is in the shortlist listing exactly when it is scanned,
      the user is on its shortlist and it is available. */
  lemma {:induction false} ShortlistedForMembers(ps: seq<Property>, userId: string, p: Property)
    ensures p in ShortlistedFor(ps, userId) <==>
      p in ps && userId in p.shortlistedBy && p.status == Available
  {
    if ps != [] {
      ShortlistedForMembers(ps[..|ps| - 1], userId, p);
      assert ps == ps[..|ps| - 1] + [ps[|ps| - 1]];
    }
  }

  /** The shortlist listing keeps the scan order. */
  lemma {:induction false} ShortlistedForIsSubsequence(ps: seq<Property>, userId: string)
    ensures IsSubsequence(ShortlistedFor(ps, userId), ps)
  {
    if ps != [] {
      var init := ps[..|ps| - 1];
      ShortlistedForIsSubsequence(init, userId);
      var rest := ShortlistedFor(init, userId);
      var p := ps[|ps| - 1];
      if userId in p.shortlistedBy && p.status == Available {
        assert (rest + [p])[..|rest|] == rest;
      }
    }
  }

  // ---------------------------------------------------------------------
  // The records

  class Property {
    const propertyId: string
    const userId: string
    const details: Details
    const timestamp: int
    var status: string
    var shortlistedBy: seq<string>

    /** A new record is available and shortlisted by nobody. */
    constructor (propertyId: string, userId: string, details: Details, timestamp: int)
      ensures this.propertyId == propertyId && this.userId == userId
      ensures this.details == details && this.timestamp == timestamp
      ensures status == Available && shortlistedBy == []
    {
      this.propertyId := propertyId;
      this.userId := userId;
      this.details := details;
      this.timestamp := timestamp;
      status := Available;
      shortlistedBy := [];
    }
  }

  /** `user_portfolios.get(user_id, [])`. */
  function PortfolioOf(portfolios: map<string, seq<string>>, userId: string): (r: seq<string>)
  {
    if userId in portfolios then portfolios[userId] else []
  }

  /** The invariant on the store's tables: every id is stored once under its
      own key, in the iteration order once, and the portfolios hold exactly
      the ids of each owner's records. */
  ghost predicate Tables(properties: map<string, Property>, order: seq<string>,
                         portfolios: map<string, seq<string>>)
  {
    && Distinct(order)
    && (forall id :: id in order ==> id in properties)
    && (forall id :: id in properties ==> id in order)
    && (forall id :: id in properties ==> properties[id].propertyId == id)
    && (forall u :: u in portfolios ==> Distinct(portfolios[u]))
    && (forall u, id :: u in portfolios && id in portfolios[u] ==>
          id in properties && properties[id].userId == u)
    && (forall id :: id in properties ==>
          properties[id].userId in portfolios && id in portfolios[properties[id].userId])
  }

  /** Inserting a record under a fresh id and appending that id to the
      iteration order and to its owner's portfolio keeps the tables consistent. */
  lemma InsertKeepsTables(properties: map<string, Property>, order: seq<string>,
                          portfolios: map<string, seq<string>>, p: Property)
    requires Tables(properties, order, portfolios)
    requires p.propertyId !in properties
    ensures Tables(properties[p.propertyId := p], order + [p.propertyId],
                   portfolios[p.userId := PortfolioOf(portfolios, p.userId) + [p.propertyId]])
  {
  }

  /** The invariant on each record: a positive price, and no user twice on
      its shortlist. */
  ghost predicate RecordsValid(properties: map<string, Property>)
    reads properties.Values
  {
    forall id :: id in properties ==>
      properties[id].details.price > 0 && Distinct(properties[id].shortlistedBy)
  }

  /** Storing one more valid record keeps every record valid. */
  lemma InsertKeepsRecords(properties: map<string, Property>, p: Property)
    requires RecordsValid(properties)
    requires p.details.price > 0 && Distinct(p.shortlistedBy)
    ensures RecordsValid(properties[p.propertyId := p])
  {
  }

  class PropertyManager {
    /** The authoritative table, from id to record. */
    var properties: map<string, Property>
    /** The ids in the order they were inserted: the iteration order of `properties`. */
    var order: seq<string>
    /** Per owner, the ids they created, in creation order. */
    var userPortfolios: map<string, seq<string>>

    ghost predicate Indexed()
      reads this
    {
      Tables(properties, order, userPortfolios)
    }

    /** The whole invariant: the tables are consistent, every price is
        positive and no user is on a shortlist twice. */
    ghost predicate Valid()
      reads this, properties.Values
    {
      Indexed() && RecordsValid(properties)
    }

    /** The records behind `ids`, in the order of `ids`. */
    ghost function RecordsOf(ids: seq<string>): (r: seq<Property>)
      reads this
      requires forall id :: id in ids ==> id in properties
      ensures |r| == |ids|
      ensures forall i :: 0 <= i < |ids| ==> r[i] == properties[ids[i]]
    {
      seq(|ids|, i requires 0 <= i < |ids| && ids[i] in properties reads this => properties[ids[i]])
    }

    /** The records in iteration order. */
    ghost function Stored(): (r: seq<Property>)
      reads this
      requires Indexed()
    {
      RecordsOf(order)
    }

    /** Iteration visits every record, each once. */
    lemma StoredIsEveryRecord()
      requires Indexed()
      ensures forall p :: p in Stored() <==> p in properties.Values
      ensures Distinct(Stored())
    {
    }

    constructor ()
      ensures Valid()
      ensures properties == map[] && order == [] && userPortfolios == map[]
    {
      properties := map[];
      order := [];
      userPortfolios := map[];
    }

    /** `add_property`. The generated uuid is `freshId`, which the caller
        guarantees unused; `now` is the creation timestamp. */
    method AddProperty(userId: string, details: Details, freshId: string, now: int)
      returns (propertyId: string)
      requires Valid()
      requires freshId !in properties
      requires details.price > 0
      modifies this
      ensures Valid()
      ensures propertyId == freshId && propertyId !in old(properties)
      ensures properties.Keys == old(properties.Keys) + {propertyId}
      ensures forall id :: id in old(properties) ==> properties[id] == old(properties[id])
      ensures fresh(properties[propertyId])
      ensures properties[propertyId].propertyId == propertyId
      ensures properties[propertyId].userId == userId
      ensures properties[propertyId].details == details
      ensures properties[propertyId].timestamp == now
      ensures properties[propertyId].status == Available
      ensures properties[propertyId].shortlistedBy == []
      ensures order == old(order) + [propertyId]
      ensures userPortfolios == old(userPortfolios)[userId := PortfolioOf(old(userPortfolios), userId) + [propertyId]]
    {
      propertyId := freshId;
      var newProperty := new Property(propertyId, userId, details, now);
      // A missing portfolio starts out empty before the id is appended.
      var portfolio := PortfolioOf(userPortfolios, userId);
      InsertKeepsTables(properties, order, userPortfolios, newProperty);
      InsertKeepsRecords(properties, newProperty);
      properties := properties[propertyId := newProperty];
      order := order + [propertyId];
      userPortfolios := userPortfolios[userId := portfolio + [propertyId]];
    }

    /** `update_property_status`: the unknown id is reported before the owner
        is looked at; only the owner may overwrite the status. */
    method UpdatePropertyStatus(propertyId: string, status: string, userId: string)
      returns (r: Result<bool>)
      requires Valid()
      modifies if propertyId in properties then {properties[propertyId]} else {}
      ensures Valid()
      ensures unchanged(this)
      ensures propertyId !in properties ==> r == Err(NotFound)
      ensures propertyId in properties && properties[propertyId].userId != userId ==>
        r == Err(Unauthorized) && unchanged(properties[propertyId])
      ensures propertyId in properties && properties[propertyId].userId == userId ==>
        && r == Ok(true)
        && properties[propertyId].status == status
        && properties[propertyId].shortlistedBy == old(properties[propertyId].shortlistedBy)
    {
      if propertyId !in properties {
        return Err(NotFound);
      }
      var propertyObj := properties[propertyId];
      if propertyObj.userId != userId {
        return Err(Unauthorized);
      }
      propertyObj.status := status;
      return Ok(true);
    }

    /** The records behind `ids`, in the order of `ids`, keeping those still available. */
    function AvailableAmong(ids: seq<string>): (r: seq<Property>)
      reads this, properties.Values
      requires forall id :: id in ids ==> id in properties
      ensures |r| <= |ids|
    {
      if ids == [] then []
      else
        var rest := AvailableAmong(ids[..|ids| - 1]);
        var p := properties[ids[|ids| - 1]];
        if p.status == Available then rest + [p] else rest
    }

    lemma {:induction false} AvailableAmongMembers(ids: seq<string>)
      requires Indexed()
      requires forall id :: id in ids ==> id in properties
      ensures forall p :: p in AvailableAmong(ids) ==>
        p.status == Available && p.propertyId in ids && properties[p.propertyId] == p
      ensures forall id :: id in ids && properties[id].status == Available ==>
        properties[id] in AvailableAmong(ids)
    {
      if ids != [] {
        AvailableAmongMembers(ids[..|ids| - 1]);
        assert ids == ids[..|ids| - 1] + [ids[|ids| - 1]];
      }
    }

    /** Filtering keeps the portfolio order. */
    lemma {:induction false} AvailableAmongInOrder(ids: seq<string>)
      requires forall id :: id in ids ==> id in properties
      ensures IsSubsequence(AvailableAmong(ids), RecordsOf(ids))
    {
      if ids != [] {
        var init := ids[..|ids| - 1];
        AvailableAmongInOrder(init);
        var rest := AvailableAmong(init);
        var all := RecordsOf(ids);
        assert all[..|all| - 1] == RecordsOf(init);
        if properties[ids[|ids| - 1]].status == Available {
          assert (rest + [all[|all| - 1]])[..|rest|] == rest;
        }
      }
    }

    /** `get_user_properties`: the owner's portfolio, in creation order, keeping
        the available records. */
    function GetUserProperties(userId: string): (r: seq<Property>)
      reads this, properties.Values
      requires Valid()
      ensures userId !in userPortfolios ==> r == []
      ensures forall p :: p in r ==>
        p in properties.Values && p.userId == userId && p.status == Available
      ensures forall id :: (id in properties && properties[id].userId == userId &&
        properties[id].status == Available) ==> properties[id] in r
      ensures IsSubsequence(r, RecordsOf(PortfolioOf(userPortfolios, userId)))
    {
      var ids := PortfolioOf(userPortfolios, userId);
      AvailableAmongMembers(ids);
      AvailableAmongInOrder(ids);
      AvailableAmong(ids)
    }
  }

  /** The search and shortlist layer over a store. */
  class PropertySearch {
    const manager: PropertyManager

    constructor (manager: PropertyManager)
      ensures this.manager == manager
    {
      this.manager := manager;
    }

    /** `search_properties`: one pass over the store in iteration order,
        keeping what matches; no status filter is applied. */
    method SearchProperties(criteria: Criteria) returns (results: seq<Property>)
      requires manager.Valid()
      ensures results == Matching(manager.Stored(), criteria)
    {
      results := [];
      var ids := manager.order;
      ghost var all := manager.Stored();
      for i := 0 to |ids|
        invariant results == Matching(all[..i], criteria)
      {
        var propertyObj := manager.properties[ids[i]];
        assert all[..i + 1][..i] == all[..i] && all[..i + 1][i] == propertyObj;
        if MatchCriteria(propertyObj, criteria) {
          results := results + [propertyObj];
        }
      }
      assert all[..|ids|] == all;
    }

    /** The search result holds exactly the stored records that match. */
    lemma SearchFindsExactly(criteria: Criteria, p: Property)
      requires manager.Indexed()
      ensures p in Matching(manager.Stored(), criteria) <==>
        p in manager.properties.Values && MatchCriteria(p, criteria)
    {
      MatchingMembers(manager.Stored(), criteria, p);
      manager.StoredIsEveryRecord();
    }

    /** `shortlist_property`: check-then-append on the record's shortlist. */
    method ShortlistProperty(userId: string, propertyId: string) returns (r: Result<bool>)
      requires manager.Valid()
      modifies if propertyId in manager.properties then {manager.properties[propertyId]} else {}
      ensures manager.Valid()
      ensures unchanged(manager)
      ensures propertyId !in manager.properties ==> r == Err(NotFound)
      ensures propertyId in manager.properties && userId in old(manager.properties[propertyId].shortlistedBy) ==>
        r == Err(AlreadyShortlisted) && unchanged(manager.properties[propertyId])
      ensures propertyId in manager.properties && userId !in old(manager.properties[propertyId].shortlistedBy) ==>
        && r == Ok(true)
        && manager.properties[propertyId].shortlistedBy == old(manager.properties[propertyId].shortlistedBy) + [userId]
        && manager.properties[propertyId].status == old(manager.properties[propertyId].status)
    {
      if propertyId !in manager.properties {
        return Err(NotFound);
      }
      var propertyObj := manager.properties[propertyId];
      if userId in propertyObj.shortlistedBy {
        return Err(AlreadyShortlisted);
      }
      propertyObj.shortlistedBy := propertyObj.shortlistedBy + [userId];
      return Ok(true);
    }

    /** The shortlist listing holds a stored record exactly while the user is on
        its shortlist and it is available. */
    lemma ShortlistedExactly(userId: string, p: Property)
      requires manager.Indexed()
      ensures p in ShortlistedFor(manager.Stored(), userId) <==>
        p in manager.properties.Values && userId in p.shortlistedBy && p.status == Available
    {
      ShortlistedForMembers(manager.Stored(), userId, p);
      manager.StoredIsEveryRecord();
    }

    /** `get_shortlisted`: one pass over the store in iteration order. */
    method GetShortlisted(userId: string) returns (shortlisted: seq<Property>)
      requires manager.Valid()
      ensures shortlisted == ShortlistedFor(manager.Stored(), userId)
    {
      shortlisted := [];
      var ids := manager.order;
      ghost var all := manager.Stored();
      for i := 0 to |ids|
        invariant shortlisted == ShortlistedFor(all[..i], userId)
      {
        var propertyObj := manager.properties[ids[i]];
        assert all[..i + 1][..i] == all[..i] && all[..i + 1][i] == propertyObj;
        if userId in propertyObj.shortlistedBy && propertyObj.status == Available {
          shortlisted := shortlisted + [propertyObj];
        }
      }
      assert all[..|ids|] == all;
    }
  }
  /** Only the owner may change a status, an unknown id is reported first,
      and the search still lists a sold property. */
  method OwnershipScenario()
  {
    var manager := new PropertyManager();
    var search := new PropertySearch(manager);
    var a := manager.AddProperty("o1", Details("NY", 1000, "Apartment", "flat", []), "pA", 0);
    var pA := manager.properties[a];
    assert manager.properties == map["pA" := pA];

    var r := manager.UpdatePropertyStatus("missing", "sold", "o2");
    assert r == Err(NotFound);
    r := manager.UpdatePropertyStatus(a, "sold", "o2");
    assert r == Err(Unauthorized) && pA.status == Available;
    r := manager.UpdatePropertyStatus(a, "sold", "o1");
    assert r == Ok(true) && pA.status == "sold";

    var criteria := Criteria(Some(500), Some(1500), Some("NY"), Some("Apartment"));
    var found := search.SearchProperties(criteria);
    search.SearchFindsExactly(criteria, pA);
    assert pA in found;
  }

  /** Shortlisting twice fails the second time, and a second user may
      shortlist the same property. */
  method ShortlistScenario()
  {
    var manager := new PropertyManager();
    var search := new PropertySearch(manager);
    var a := manager.AddProperty("o1", Details("NY", 1000, "Apartment", "flat", []), "pA", 0);
    var pA := manager.properties[a];
    assert manager.properties == map["pA" := pA];

    var r := search.ShortlistProperty("u", a);
    assert r == Ok(true) && pA.shortlistedBy == ["u"];
    r := search.ShortlistProperty("u", a);
    assert r == Err(AlreadyShortlisted);
    r := search.ShortlistProperty("v", a);
    assert r == Ok(true) && pA.shortlistedBy == ["u", "v"];
  }

  /** The shortlist listing shows a property once the user shortlisted it, and
      only while it is available. */
  method ShortlistListingScenario()
  {
    var manager := new PropertyManager();
    var search := new PropertySearch(manager);
    var a := manager.AddProperty("o1", Details("NY", 1000, "Apartment", "flat", []), "pA", 0);
    var pA := manager.properties[a];
    assert manager.properties == map["pA" := pA];

    var mine := search.GetShortlisted("u");
    search.ShortlistedExactly("u", pA);
    assert pA !in mine;

    var r := search.ShortlistProperty("u", a);
    mine := search.GetShortlisted("u");
    search.ShortlistedExactly("u", pA);
    assert pA in mine;

    r := manager.UpdatePropertyStatus(a, "sold", "o1");
    mine := search.GetShortlisted("u");
    search.ShortlistedExactly("u", pA);
    assert pA !in mine;
  }
}
