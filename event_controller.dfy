/** The event handlers of `backend/events/event.controller.js` over an in-memory
    events table: create with its field check, case-blind search, and
    get/update/delete by id with their not-found answers. */
module EventController {
  import opened Wrappers
  import opened Seqs
  import opened Text
  import opened Js
  import opened Http

  datatype Event = Event(id: int, name: string, photo: string, date: string, location: string, price: int, categoryId: int)

  /** The fields a create or update request carries; each may be missing. */
  datatype EventBody = EventBody(name: Option<string>, photo: Option<string>, date: Option<string>,
                                 location: Option<string>, price: Option<int>, categoryId: Option<int>)

  const EmptyBody := EventBody(None, None, None, None, None, None)

  predicate UniqueIds(rows: seq<Event>) {
    forall i, j :: 0 <= i < j < |rows| ==> rows[i].id != rows[j].id
  }

  /** No field of `e` holds a falsy value (`""` or `0`). */
  predicate AllTruthy(e: Event) {
    e.name != "" && e.photo != "" && e.date != "" && e.location != "" && e.price != 0 && e.categoryId != 0
  }

  /** The guard of `createEvent`: name, date, location, price, categoryId and the uploaded
      file name must all be truthy; a `photo` field in the body plays no part. */
  predicate CreateInputComplete(body: EventBody, upload: Option<string>) {
    Truthy(body.name) && Truthy(body.date) && Truthy(body.location)
    && TruthyNum(body.price) && TruthyNum(body.categoryId) && Truthy(upload)
  }

  /** `event.f = f || event.f` for the six fields of `updateEvent`. */
  function Merge(e: Event, body: EventBody): (r: Event)
    ensures r.id == e.id
    ensures r.name == (if Truthy(body.name) then body.name.value else e.name)
    ensures r.photo == (if Truthy(body.photo) then body.photo.value else e.photo)
    ensures r.date == (if Truthy(body.date) then body.date.value else e.date)
    ensures r.location == (if Truthy(body.location) then body.location.value else e.location)
    ensures r.price == (if TruthyNum(body.price) then body.price.value else e.price)
    ensures r.categoryId == (if TruthyNum(body.categoryId) then body.categoryId.value else e.categoryId)
  {
    e.(name := if Truthy(body.name) then body.name.value else e.name,
       photo := if Truthy(body.photo) then body.photo.value else e.photo,
       date := if Truthy(body.date) then body.date.value else e.date,
       location := if Truthy(body.location) then body.location.value else e.location,
       price := if TruthyNum(body.price) then body.price.value else e.price,
       categoryId := if TruthyNum(body.categoryId) then body.categoryId.value else e.categoryId)
  }

  /** An update can never blank a field: a truthy field stays truthy, whatever the body. */
  lemma MergeKeepsTruthy(e: Event, body: EventBody)
    requires AllTruthy(e)
    ensures AllTruthy(Merge(e, body))
  {
  }

  /** An empty body leaves the event as it was, and applying a body twice is applying it once. */
  lemma MergeEmptyAndIdempotent(e: Event, body: EventBody)
    ensures Merge(e, EmptyBody) == e
    ensures Merge(Merge(e, body), body) == Merge(e, body)
  {
  }

  /** The first row with the given id (`findByPk`). */
  function FindIndex(rows: seq<Event>, id: int): (r: Option<nat>)
    ensures r.Some? ==> r.value < |rows| && rows[r.value].id == id
    ensures r.Some? ==> forall j :: 0 <= j < r.value ==> rows[j].id != id
    ensures r.None? ==> forall j :: 0 <= j < |rows| ==> rows[j].id != id
  {
    if rows == [] then None
    else if rows[0].id == id then Some(0)
    else match FindIndex(rows[1..], id)
      case None => None
      case Some(k) => Some(k + 1)
  }

  /** `getEventById`: the row with that id, or 404. `dbOk` is whether the query resolves. */
  function GetEventById(rows: seq<Event>, id: int, dbOk: bool): (r: Reply<Event>)
    ensures !dbOk ==> r == Fail(ServerError)
    ensures dbOk && (forall j :: 0 <= j < |rows| ==> rows[j].id != id) ==> r == Fail(NotFound)
    ensures dbOk && (exists j :: 0 <= j < |rows| && rows[j].id == id) ==> r.Ok? && r.status == 200
    ensures r.Ok? ==> r.body in rows && r.body.id == id
  {
    if !dbOk then Fail(ServerError)
    else match FindIndex(rows, id)
      case None => Fail(NotFound)
      case Some(i) => Ok(200, rows[i])
  }

  /** `getAllEvents`: every row, in table order. */
  function AllEvents(rows: seq<Event>, dbOk: bool): (r: Reply<seq<Event>>)
    ensures !dbOk ==> r == Fail(ServerError)
    ensures dbOk ==> r.Ok? && r.status == 200 && r.body == rows
  {
    if !dbOk then Fail(ServerError) else Ok(200, rows)
  }

  /** `getEventsByCategory`: the rows of one category, in table order. */
  function EventsByCategory(rows: seq<Event>, categoryId: int, dbOk: bool): (r: Reply<seq<Event>>)
    ensures !dbOk ==> r == Fail(ServerError)
    ensures dbOk ==> r.Ok? && r.status == 200
    ensures r.Ok? ==> forall i :: 0 <= i < |r.body| ==> r.body[i] in rows && r.body[i].categoryId == categoryId
    ensures r.Ok? ==> forall i :: 0 <= i < |rows| && rows[i].categoryId == categoryId ==> rows[i] in r.body
    ensures r.Ok? ==> IsSubsequence(r.body, rows)
  {
    if !dbOk then Fail(ServerError)
    else
      FilterIsSubsequence(rows, (e: Event) => e.categoryId == categoryId);
      Ok(200, Filter(rows, (e: Event) => e.categoryId == categoryId))
  }

  /** `name ILIKE '%q%' OR location ILIKE '%q%'`. */
  predicate MatchesSearch(e: Event, q: string) {
    ContainsIgnoreCase(e.name, q) || ContainsIgnoreCase(e.location, q)
  }

  /** `searchEvents`: 400 for a missing or blank query; otherwise the rows whose name or
      location contains the trimmed query, ignoring case, in table order. */
  function SearchEvents(rows: seq<Event>, query: Option<string>, dbOk: bool): (r: Reply<seq<Event>>)
    ensures query.None? || IsBlank(query.value) ==> r == Fail(BadRequest)
    ensures query.Some? && !IsBlank(query.value) && !dbOk ==> r == Fail(ServerError)
    ensures query.Some? && !IsBlank(query.value) && dbOk ==> r.Ok? && r.status == 200
    ensures r.Ok? ==> forall i :: 0 <= i < |r.body| ==> r.body[i] in rows && MatchesSearch(r.body[i], Trim(query.value))
    ensures r.Ok? ==> forall i :: 0 <= i < |rows| && MatchesSearch(rows[i], Trim(query.value)) ==> rows[i] in r.body
    ensures r.Ok? ==> IsSubsequence(r.body, rows)
  {
    if query.None? || Trim(query.value) == "" then Fail(BadRequest)
    else if !dbOk then Fail(ServerError)
    else
      var q := Trim(query.value);
      FilterIsSubsequence(rows, (e: Event) => MatchesSearch(e, q));
      Ok(200, Filter(rows, (e: Event) => MatchesSearch(e, q)))
  }

  lemma UniqueIdsTail(rows: seq<Event>)
    requires UniqueIds(rows) && rows != []
    ensures UniqueIds(rows[1..])
  {
    var tail := rows[1..];
    forall j, k | 0 <= j < k < |tail| ensures tail[j].id != tail[k].id {
      assert tail[j] == rows[j + 1] && tail[k] == rows[k + 1];
    }
  }

  /** With unique ids, the rows after the first are exactly those without its id. */
  lemma RemoveFirstIsFilter(rows: seq<Event>, id: int)
    requires UniqueIds(rows) && rows != [] && rows[0].id == id
    ensures rows[1..] == Filter(rows, (e: Event) => e.id != id)
  {
    var keep := (e: Event) => e.id != id;
    var tail := rows[1..];
    forall j | 0 <= j < |tail| ensures keep(tail[j]) {
      assert tail[j] == rows[j + 1];
    }
    FilterAll(tail, keep);
  }

  /** Removing one row keeps every remaining id within `[1, nextId)` and pairwise distinct. */
  lemma RemoveAtKeepsIds(rows: seq<Event>, i: nat, nextId: int, r: seq<Event>)
    requires i < |rows| && UniqueIds(rows) && r == rows[..i] + rows[i + 1..]
    requires forall k :: 0 <= k < |rows| ==> 1 <= rows[k].id < nextId
    ensures UniqueIds(r)
    ensures forall k :: 0 <= k < |r| ==> 1 <= r[k].id < nextId
  {
    assert forall k :: 0 <= k < i ==> r[k] == rows[k];
    assert forall k :: i <= k < |r| ==> r[k] == rows[k + 1];
  }

  /** Deleting the one row that carries `id` from a table of unique ids removes exactly
      the rows with that id. */
  lemma {:induction false} RemoveAtIsFilter(rows: seq<Event>, i: nat, id: int)
    requires UniqueIds(rows) && i < |rows| && rows[i].id == id
    ensures rows[..i] + rows[i + 1..] == Filter(rows, (e: Event) => e.id != id)
  {
    if i == 0 {
      RemoveFirstIsFilter(rows, id);
      assert rows[..0] + rows[1..] == rows[1..];
    } else {
      var tail := rows[1..];
      UniqueIdsTail(rows);
      RemoveAtIsFilter(tail, i - 1, id);
      RemoveAtTail(rows, i);
      assert rows[0].id != id;
    }
  }

  /** The events table. Ids are assigned in increasing order and never reused. */
  class EventTable {
    var rows: seq<Event>
    var nextId: int

    ghost predicate Valid()
      reads this
    {
      && nextId >= 1
      && (forall i :: 0 <= i < |rows| ==> 1 <= rows[i].id < nextId)
      && UniqueIds(rows)
    }

    constructor ()
      ensures Valid() && rows == [] && nextId == 1
    {
      rows := [];
      nextId := 1;
    }

    /** `createEvent`. `upload` is the stored file name of the uploaded photo, if any;
        `dbOk` is whether `Event.create` resolves. */
    method Create(body: EventBody, upload: Option<string>, dbOk: bool) returns (r: Reply<Event>)
      requires Valid()
      modifies this
      ensures Valid()
      ensures !CreateInputComplete(body, upload) ==> r == Fail(BadRequest) && rows == old(rows) && nextId == old(nextId)
      ensures CreateInputComplete(body, upload) && !dbOk ==> r == Fail(ServerError) && rows == old(rows) && nextId == old(nextId)
      ensures CreateInputComplete(body, upload) && dbOk ==>
        var e := Event(old(nextId), body.name.value, upload.value, body.date.value, body.location.value,
                       body.price.value, body.categoryId.value);
        && r == Ok(201, e) && rows == old(rows) + [e] && nextId == old(nextId) + 1
        && FindIndex(old(rows), e.id).None? && AllTruthy(e)
    {
      if !CreateInputComplete(body, upload) {
        return Fail(BadRequest);
      }
      if !dbOk {
        return Fail(ServerError);
      }
      var e := Event(nextId, body.name.value, upload.value, body.date.value, body.location.value,
                     body.price.value, body.categoryId.value);
      rows := rows + [e];
      nextId := nextId + 1;
      r := Ok(201, e);
    }

    /** `updateEvent`: 404 for an unknown id; otherwise each field takes the body's value
        when that is truthy and keeps its old value otherwise, and the row is saved. */
    method Update(id: int, body: EventBody, dbOk: bool) returns (r: Reply<Event>)
      requires Valid()
      modifies this`rows
      ensures Valid()
      ensures dbOk && FindIndex(old(rows), id).None? ==> r == Fail(NotFound) && rows == old(rows)
      ensures !dbOk ==> r == Fail(ServerError) && rows == old(rows)
      ensures dbOk && FindIndex(old(rows), id).Some? ==>
        var i := FindIndex(old(rows), id).value;
        r == Ok(200, Merge(old(rows)[i], body)) && rows == old(rows)[i := Merge(old(rows)[i], body)]
    {
      if !dbOk {
        return Fail(ServerError);
      }
      var found := FindIndex(rows, id);
      if found.None? {
        return Fail(NotFound);
      }
      var i := found.value;
      var e := rows[i];
      e := e.(name := if Truthy(body.name) then body.name.value else e.name);
      e := e.(photo := if Truthy(body.photo) then body.photo.value else e.photo);
      e := e.(date := if Truthy(body.date) then body.date.value else e.date);
      e := e.(location := if Truthy(body.location) then body.location.value else e.location);
      e := e.(price := if TruthyNum(body.price) then body.price.value else e.price);
      e := e.(categoryId := if TruthyNum(body.categoryId) then body.categoryId.value else e.categoryId);
      rows := rows[i := e];
      r := Ok(200, e);
    }

    /** `deleteEvent`: 404 for an unknown id; otherwise exactly the row with that id goes. */
    method Delete(id: int, dbOk: bool) returns (r: Reply<()>)
      requires Valid()
      modifies this`rows
      ensures Valid()
      ensures dbOk && FindIndex(old(rows), id).None? ==> r == Fail(NotFound) && rows == old(rows)
      ensures !dbOk ==> r == Fail(ServerError) && rows == old(rows)
      ensures dbOk && FindIndex(old(rows), id).Some? ==>
        r == Ok(200, ()) && rows == Filter(old(rows), (e: Event) => e.id != id)
    {
      if !dbOk {
        return Fail(ServerError);
      }
      var found := FindIndex(rows, id);
      if found.None? {
        return Fail(NotFound);
      }
      var i := found.value;
      var rest := rows[..i] + rows[i + 1..];
      RemoveAtIsFilter(rows, i, id);
      RemoveAtKeepsIds(rows, i, nextId, rest);
      rows := rest;
      r := Ok(200, ());
    }
  }
}
