/**
 * The logic of the search and shortlist route handlers (routes.py): the
 * 1-indexed pagination of the full search result, the distinct reply for an
 * empty result, and the projection of each record to the view callers see.
 */
module Routes {
  import opened Services

  /** What a caller sees of a property. In the source the shortlist is a key
      of the details dictionary, so it is part of the view. */
  datatype View = View(propertyId: string, details: Details, shortlistedBy: seq<string>, status: string)

  /** A handler's reply: a body, or an HTTP error with its detail message. */
  datatype Reply<T> = Body(body: T) | HttpError(status: int, detail: string)

  datatype SearchPage = SearchPage(results: seq<View>, total: int)

  const NoMatchesDetail := "No properties found matching criteria"
  const NoShortlistedDetail := "No shortlisted properties found"

  /** `{"property_id": ..., "details": ..., "status": ...}`: the owner and the
      timestamp are not shown. */
  function Project(p: Property): (v: View)
    reads p
  {
    View(p.propertyId, p.details, p.shortlistedBy, p.status)
  }

  /** The list comprehension projecting every record, in order. */
  function ProjectAll(ps: seq<Property>): (views: seq<View>)
    reads ps
    ensures |views| == |ps|
    ensures forall i :: 0 <= i < |ps| ==> views[i] == Project(ps[i])
  {
    if ps == [] then [] else [Project(ps[0])] + ProjectAll(ps[1..])
  }

  /** Python's `s[start:end]` for `0 <= start <= end`: both bounds are clipped
      to the length of `s`. */
  function Slice<T>(s: seq<T>, start: nat, end: nat): (r: seq<T>)
    requires start <= end
  {
    var lo := if start < |s| then start else |s|;
    var hi := if end < |s| then end else |s|;
    s[lo..hi]
  }

  /** `results[(page - 1) * limit : (page - 1) * limit + limit]`. */
  function Paginate<T>(results: seq<T>, page: int, limit: int): (r: seq<T>)
    requires page >= 1 && limit >= 1
    ensures |r| <= limit
    ensures (page - 1) * limit >= |results| ==> r == []
    ensures (page - 1) * limit < |results| ==>
      |r| == if |results| - (page - 1) * limit < limit then |results| - (page - 1) * limit else limit
    ensures forall k :: 0 <= k < |r| ==> (page - 1) * limit + k < |results| && r[k] == results[(page - 1) * limit + k]
  {
    var start: nat := (page - 1) * limit;
    Slice(results, start, start + limit)
  }

  /** Every result is on exactly one page: the `i`-th (from 0) is item
      `i % limit` of page `i / limit + 1`. */
  lemma PageOfResult<T>(results: seq<T>, limit: int, i: int)
    requires limit >= 1 && 0 <= i < |results|
    ensures var r := Paginate(results, i / limit + 1, limit);
      i % limit < |r| && r[i % limit] == results[i]
  {
    var page := i / limit + 1;
    assert (page - 1) * limit + i % limit == i;
  }

  /** The reply of the search handler for the full result `full`. */
  function SearchReply(full: seq<Property>, page: int, limit: int): (reply: Reply<SearchPage>)
    reads full
    requires page >= 1 && limit >= 1
    ensures full == [] <==> reply == HttpError(404, NoMatchesDetail)
    ensures full != [] ==> reply.Body? && reply.body.total == |full|
    ensures full != [] ==> |reply.body.results| <= limit
    ensures full != [] && (page - 1) * limit < |full| ==>
      |reply.body.results| ==
        if |full| - (page - 1) * limit < limit then |full| - (page - 1) * limit else limit
    ensures full != [] ==> forall k :: 0 <= k < |reply.body.results| ==>
      (page - 1) * limit + k < |full| && reply.body.results[k] == Project(full[(page - 1) * limit + k])
    ensures full != [] && (page - 1) * limit >= |full| ==> reply == Body(SearchPage([], |full|))
  {
    if full == [] then HttpError(404, NoMatchesDetail)
    else Body(SearchPage(ProjectAll(Paginate(full, page, limit)), |full|))
  }

  /** The reply of the shortlist listing handler: the whole list, unpaginated. */
  function ShortlistedReply(shortlisted: seq<Property>): (reply: Reply<seq<View>>)
    reads shortlisted
    ensures shortlisted == [] <==> reply == HttpError(404, NoShortlistedDetail)
    ensures shortlisted != [] ==> reply.Body? && |reply.body| == |shortlisted|
    ensures shortlisted != [] ==> forall i :: 0 <= i < |shortlisted| ==>
      reply.body[i] == Project(shortlisted[i])
  {
    if shortlisted == [] then HttpError(404, NoShortlistedDetail)
    else Body(ProjectAll(shortlisted))
  }

  /** `search_properties`: the query parameters become the criteria, the
      service scans the store and the reply pages the full result. The prices,
      `page` and `limit` are validated positive before the handler runs. */
  method SearchPropertiesRoute(search: PropertySearch, minPrice: Option<int>, maxPrice: Option<int>,
                               location: Option<string>, propertyType: Option<string>,
                               page: int, limit: int)
    returns (reply: Reply<SearchPage>)
    requires search.manager.Valid()
    requires minPrice.Some? ==> minPrice.value > 0
    requires maxPrice.Some? ==> maxPrice.value > 0
    requires page >= 1 && limit >= 1
    ensures reply == SearchReply(Matching(search.manager.Stored(),
                                          Criteria(minPrice, maxPrice, location, propertyType)), page, limit)
  {
    var criteria := Criteria(minPrice, maxPrice, location, propertyType);
    var results := search.SearchProperties(criteria);
    reply := SearchReply(results, page, limit);
  }

  /** `get_shortlisted_properties`. */
  method GetShortlistedPropertiesRoute(search: PropertySearch, currentUser: string)
    returns (reply: Reply<seq<View>>)
    requires search.manager.Valid()
    ensures reply == ShortlistedReply(ShortlistedFor(search.manager.Stored(), currentUser))
  {
    var shortlisted := search.GetShortlisted(currentUser);
    reply := ShortlistedReply(shortlisted);
  }

  /** A search nothing matches gets its own 404, not an empty page. */
  method EmptySearchScenario()
  {
    var manager := new PropertyManager();
    var search := new PropertySearch(manager);
    var a := manager.AddProperty("o1", Details("NY", 1000, "Apartment", "flat", []), "pA", 0);
    var pA := manager.properties[a];
    assert manager.Stored() == [pA];
    var tooDear := Criteria(Some(5000), None, None, None);
    assert !MatchCriteria(pA, tooDear) && Matching([pA], tooDear) == [];

    var found := SearchPropertiesRoute(search, Some(5000), None, None, None, 1, 10);
    assert found == HttpError(404, NoMatchesDetail);
  }

  /** A user who shortlisted nothing gets the listing's own 404. */
  method EmptyShortlistScenario()
  {
    var manager := new PropertyManager();
    var search := new PropertySearch(manager);
    var a := manager.AddProperty("o1", Details("NY", 1000, "Apartment", "flat", []), "pA", 0);
    var pA := manager.properties[a];
    assert manager.Stored() == [pA];

    var listed := GetShortlistedPropertiesRoute(search, "other");
    assert listed == HttpError(404, NoShortlistedDetail);
  }
}
