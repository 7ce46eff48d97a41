/**
  The request handlers of lab2_app/views.py over an in-memory store.

  Each changing handler is a method of `Store`: it validates the request (400),
  resolves the ids it refers to (404), applies the ownership rule (403), and
  commits. A commit checks every database constraint on the candidate tables
  and either installs them or leaves the tables as they were (400). An insert
  draws its id from the table's counter before the commit, so a refused insert
  still uses up an id, as a database sequence does. The read handlers are
  functions of the store's state.
*/
module Views {
  import opened Wrappers
  import opened Json
  import opened Decimals
  import opened Time
  import opened Schemas
  import opened Models

  // ----- Responses -----

  /** The `details` of an error: the schema's messages, or the database's text. */
  datatype Details = NoDetails | FieldDetails(fields: FieldErrors) | StorageDetails

  /** `{"id", "user_name"}`. */
  datatype UserView = UserView(id: int, userName: string)

  /** `{"id", "category_name", "user_id"}`; `user_id` is null for a global category. */
  datatype CategoryView = CategoryView(id: int, categoryName: string, userId: Option<int>)

  /** The five fields the record handlers return. */
  datatype RecordView = RecordView(id: int, userId: int, categoryId: int, datetime: Timestamp, amount: Decimal)

  datatype Payload =
    | PUser(user: UserView)
    | PUsers(users: seq<UserView>)
    | PUserDeleted(result: string, userName: string)
    | PCategory(category: CategoryView)
    | PCategories(categories: seq<CategoryView>)
    | PCategoryDeleted(result: string, categoryName: string)
    | PRecord(record: RecordView)           // `read_entry`: the id under "id"
    | PRecordCreated(record: RecordView)    // `create_entry`: the id under "record_id"
    | PRecordDeleted(result: string, deleted: RecordView)
    | PRecordPage(items: seq<RecordView>, counter: int)
    | PError(error: string, details: Details)

  /** An HTTP status code and the JSON body, by shape. */
  datatype Response = Response(status: int, payload: Payload)

  const InvalidUserData := "invalid user data"
  const InvalidUserId := "invalid user_id"
  const UserNotFound := "user not found"
  const InvalidQueryParams := "invalid query params"
  const InvalidCategoryData := "invalid category data"
  const InvalidCategoryId := "invalid category id"
  const CategoryNotFound := "category not found"
  const InvalidRecordId := "invalid record_id"
  const RecordNotFound := "record not found"
  const InvalidRecordData := "invalid record data"
  const CategoryNotAvailable := "category not available for this user"
  const FilterRequired := "provide user_id and/or category_id"

  /** `f"id: {id} successfully deleted"`. */
  function DeletedMessage(id: int): string {
    "id: " + IntToString(id) + " successfully deleted"
  }

  function ViewOfRecord(id: int, r: Record): RecordView {
    RecordView(id, r.userId, r.categoryId, r.datetime, r.amount)
  }

  function ViewOfCategory(id: int, c: Category): CategoryView {
    CategoryView(id, c.name, c.owner)
  }

  // ----- Ordering (the ORDER BY clauses) -----

  /**
    The users with ids in `[lo, hi)`, ascending. Every id a table holds lies
    below its counter, so scanning up to the counter is `ORDER BY id ASC`.
  */
  function UserScan(table: map<int, User>, lo: int, hi: int): (views: seq<UserView>)
    ensures forall i :: 0 <= i < |views| ==> lo <= views[i].id
    ensures forall i, j :: 0 <= i < j < |views| ==> views[i].id < views[j].id
    ensures forall v :: v in views <==> lo <= v.id < hi && v.id in table && v.userName == table[v.id].name
    decreases hi - lo
  {
    if lo >= hi then []
    else if lo in table then [UserView(lo, table[lo].name)] + UserScan(table, lo + 1, hi)
    else UserScan(table, lo + 1, hi)
  }

  /** `a` may be listed before `b` under `ORDER BY datetime DESC, id DESC`. */
  predicate RanksBefore(a: RecordView, b: RecordView) {
    a.datetime > b.datetime || (a.datetime == b.datetime && a.id >= b.id)
  }

  predicate NewestFirst(s: seq<RecordView>) {
    forall i, j :: 0 <= i < j < |s| ==> RanksBefore(s[i], s[j])
  }

  function InsertByRank(v: RecordView, s: seq<RecordView>): (r: seq<RecordView>)
    requires NewestFirst(s)
    ensures NewestFirst(r)
    ensures multiset(r) == multiset(s) + multiset{v}
  {
    if s == [] then [v]
    else if RanksBefore(v, s[0]) then
      assert forall j :: 0 < j < |s| ==> RanksBefore(s[0], s[j]);
      [v] + s
    else
      var rest := InsertByRank(v, s[1..]);
      assert s == [s[0]] + s[1..];
      assert forall x :: x in rest ==> x in multiset(s[1..]) || x == v by {
        forall x | x in rest ensures x in multiset(s[1..]) || x == v {
          assert x in multiset(rest);
        }
      }
      assert forall j :: 0 <= j < |rest| ==> RanksBefore(s[0], rest[j]) by {
        forall j | 0 <= j < |rest| ensures RanksBefore(s[0], rest[j]) {
          assert rest[j] in rest;
          if rest[j] != v {
            assert rest[j] in s[1..];
          }
        }
      }
      [s[0]] + rest
  }

  /** `ORDER BY datetime DESC, id DESC`, by insertion. */
  function SortNewestFirst(s: seq<RecordView>): (r: seq<RecordView>)
    ensures NewestFirst(r)
    ensures multiset(r) == multiset(s)
  {
    if s == [] then []
    else
      assert s == [s[0]] + s[1..];
      InsertByRank(s[0], SortNewestFirst(s[1..]))
  }

  /** Two orderings that hold the same elements have the same members. */
  lemma SameMembers<T>(a: seq<T>, b: seq<T>)
    requires multiset(a) == multiset(b)
    ensures forall x :: x in a <==> x in b
  {
    forall x ensures x in a <==> x in b {
      assert x in a <==> x in multiset(a);
      assert x in b <==> x in multiset(b);
    }
  }

  // ----- Query filters -----

  /** The body a query handler hands its schema: only the parameters that are present. */
  function QueryBody(userId: Option<int>, categoryId: Option<int>): (d: Body)
    ensures "user_id" in d <==> userId.Some?
    ensures userId.Some? ==> d["user_id"] == JInt(userId.value)
    ensures "category_id" in d <==> categoryId.Some?
    ensures categoryId.Some? ==> d["category_id"] == JInt(categoryId.value)
    ensures d.Keys <= {"user_id", "category_id"}
  {
    var withUser: Body := if userId.Some? then map["user_id" := JInt(userId.value)] else map[];
    if categoryId.Some? then withUser["category_id" := JInt(categoryId.value)] else withUser
  }

  predicate ValidFilter(id: Option<int>) {
    id.None? || id.value >= 1
  }

  predicate MatchesFilter(r: Record, userId: Option<int>, categoryId: Option<int>) {
    && (userId.None? || r.userId == userId.value)
    && (categoryId.None? || r.categoryId == categoryId.value)
  }

  /** The in-memory store: the three tables and one id sequence per table. */
  class Store {
    var users: map<int, User>
    var categories: map<int, Category>
    var records: map<int, Record>
    var nextUserId: int
    var nextCategoryId: int
    var nextRecordId: int

    function State(): Tables
      reads this
    {
      Tables(users, categories, records)
    }

    /**
      The tables meet every database constraint and the ownership rule, and
      every id lies below its table's counter.
    */
    ghost predicate Valid()
      reads this
    {
      && Consistent(State())
      && OwnershipRule(State())
      && 1 <= nextUserId && 1 <= nextCategoryId && 1 <= nextRecordId
      && (forall u :: u in users ==> 1 <= u < nextUserId)
      && (forall c :: c in categories ==> 1 <= c < nextCategoryId)
      && (forall r :: r in records ==> 1 <= r < nextRecordId)
    }

    constructor ()
      ensures Valid()
      ensures State() == Tables(map[], map[], map[])
      ensures nextUserId == 1 && nextCategoryId == 1 && nextRecordId == 1
    {
      users, categories, records := map[], map[], map[];
      nextUserId, nextCategoryId, nextRecordId := 1, 1, 1;
    }

    /** `db.session.commit()`: install the candidate tables if they meet every constraint, else roll back. */
    method Commit(candidate: Tables) returns (ok: bool)
      modifies this
      ensures ok == Consistent(candidate)
      ensures State() == if ok then candidate else old(State())
      ensures nextUserId == old(nextUserId) && nextCategoryId == old(nextCategoryId)
      ensures nextRecordId == old(nextRecordId)
    {
      ok := Consistent(candidate);
      if ok {
        users, categories, records := candidate.users, candidate.categories, candidate.records;
      }
    }

    // ----- Users -----

    /** `GET /user/<user_id>`: no schema; an absent id is 404. */
    function ReadPerson(userId: nat): (r: Response)
      reads this
      ensures r.status == 200 <==> userId in users
      ensures r.status == 200 ==> r.payload == PUser(UserView(userId, users[userId].name))
      ensures r.status != 200 ==> r == Response(404, PError(UserNotFound, NoDetails))
    {
      if userId in users then Response(200, PUser(UserView(userId, users[userId].name)))
      else Response(404, PError(UserNotFound, NoDetails))
    }

    /** `GET /users`: every user, in ascending id order. */
    function ReadPeople(): (r: Response)
      requires Valid()
      reads this
      ensures r.status == 200 && r.payload.PUsers?
      ensures forall i, j :: 0 <= i < j < |r.payload.users| ==> r.payload.users[i].id < r.payload.users[j].id
      ensures forall v :: v in r.payload.users <==> v.id in users && v.userName == users[v.id].name
    {
      Response(200, PUsers(UserScan(users, 1, nextUserId)))
    }

    /** `POST /user`. */
    method CreatePerson(body: Body) returns (resp: Response)
      requires Valid()
      modifies this
      ensures Valid()
      ensures categories == old(categories) && records == old(records)
      ensures nextCategoryId == old(nextCategoryId) && nextRecordId == old(nextRecordId)
      ensures UserCreate(body).Err? ==>
                && resp == Response(400, PError(InvalidUserData, FieldDetails(UserCreate(body).error)))
                && users == old(users) && nextUserId == old(nextUserId)
      ensures UserCreate(body).Ok? && NameTaken(old(users), UserCreate(body).value) ==>
                && resp == Response(400, PError(InvalidUserData, StorageDetails))
                && users == old(users) && nextUserId == old(nextUserId) + 1
      ensures UserCreate(body).Ok? && !NameTaken(old(users), UserCreate(body).value) ==>
                && resp == Response(201, PUser(UserView(old(nextUserId), UserCreate(body).value)))
                && old(nextUserId) !in old(users)
                && users == old(users)[old(nextUserId) := User(UserCreate(body).value)]
                && nextUserId == old(nextUserId) + 1
    {
      var loaded := UserCreate(body);
      if loaded.Err? {
        return Response(400, PError(InvalidUserData, FieldDetails(loaded.error)));
      }
      var id := nextUserId;
      nextUserId := nextUserId + 1;   // the INSERT draws the id, whether or not the commit succeeds
      var before := State();
      AddUserCommits(before, id, User(loaded.value));
      var ok := Commit(AddUser(before, id, User(loaded.value)));
      if !ok {
        return Response(400, PError(InvalidUserData, StorageDetails));
      }
      resp := Response(201, PUser(UserView(id, loaded.value)));
    }

    /** `DELETE /user/<user_id>`: the cascade removes the user's records and categories. */
    method DropPerson(userId: nat) returns (resp: Response)
      requires Valid()
      modifies this
      ensures Valid()
      ensures nextUserId == old(nextUserId) && nextCategoryId == old(nextCategoryId)
      ensures nextRecordId == old(nextRecordId)
      ensures userId == 0 ==>
                && resp == Response(400, PError(InvalidUserId, FieldDetails(map["user_id" := AtLeastOne])))
                && State() == old(State())
      ensures userId >= 1 && userId !in old(users) ==>
                resp == Response(404, PError(UserNotFound, NoDetails)) && State() == old(State())
      ensures userId >= 1 && userId in old(users) ==>
                && resp == Response(200, PUserDeleted(DeletedMessage(userId), old(users)[userId].name))
                && State() == DeleteUser(old(State()), userId)
    {
      PathIdLoads("user_id", UserIdRequired, userId);
      var checked := UserIdPath(map["user_id" := JInt(userId)]);
      if checked.Err? {
        return Response(400, PError(InvalidUserId, FieldDetails(checked.error)));
      }
      if userId !in users {
        return Response(404, PError(UserNotFound, NoDetails));
      }
      var name := users[userId].name;
      var before := State();
      DeleteUserConsistent(before, userId);
      var ok := Commit(DeleteUser(before, userId));
      resp := Response(200, PUserDeleted(DeletedMessage(userId), name));
    }

    // ----- Categories -----

    /**
      `GET /category`: without `user_id` the global categories, with it the
      categories that user owns; ascending id order either way.
    */
    function ReadKinds(userId: Option<int>): (r: Response)
      requires Valid()
      reads this
      ensures !ValidFilter(userId) ==>
                r == Response(400, PError(InvalidQueryParams, FieldDetails(map["user_id" := AtLeastOne])))
      ensures ValidFilter(userId) ==> r.status == 200 && r.payload.PCategories?
      ensures ValidFilter(userId) ==>
                forall i, j :: 0 <= i < j < |r.payload.categories| ==>
                  r.payload.categories[i].id < r.payload.categories[j].id
      ensures ValidFilter(userId) ==>
                forall v :: v in r.payload.categories <==>
                  v.id in categories && categories[v.id].owner == userId && v == ViewOfCategory(v.id, categories[v.id])
    {
      CategoryQueryOfParam(userId);
      match CategoryQuery(QueryBody(userId, None))
      case Err(e) => Response(400, PError(InvalidQueryParams, FieldDetails(e)))
      case Ok(owner) => Response(200, PCategories(CategoriesOwnedBy(categories, owner, nextCategoryId)))
    }

    /** `POST /category`: the owner, when given, must exist; the name must be free in its scope. */
    method CreateKind(body: Body) returns (resp: Response)
      requires Valid()
      modifies this
      ensures Valid()
      ensures users == old(users) && records == old(records)
      ensures nextUserId == old(nextUserId) && nextRecordId == old(nextRecordId)
      ensures CategoryCreate(body).Err? ==>
                && resp == Response(400, PError(InvalidCategoryData, FieldDetails(CategoryCreate(body).error)))
                && categories == old(categories) && nextCategoryId == old(nextCategoryId)
      ensures CategoryCreate(body).Ok? ==>
                var c := Category(CategoryCreate(body).value.name, CategoryCreate(body).value.userId);
                && (c.owner.Some? && c.owner.value !in old(users) ==>
                      && resp == Response(404, PError(UserNotFound, NoDetails))
                      && categories == old(categories) && nextCategoryId == old(nextCategoryId))
                && ((c.owner.None? || c.owner.value in old(users)) && ScopeTaken(old(categories), c) ==>
                      && resp == Response(400, PError(InvalidCategoryData, StorageDetails))
                      && categories == old(categories) && nextCategoryId == old(nextCategoryId) + 1)
                && ((c.owner.None? || c.owner.value in old(users)) && !ScopeTaken(old(categories), c) ==>
                      && resp == Response(201, PCategory(ViewOfCategory(old(nextCategoryId), c)))
                      && old(nextCategoryId) !in old(categories)
                      && categories == old(categories)[old(nextCategoryId) := c]
                      && nextCategoryId == old(nextCategoryId) + 1)
    {
      var loaded := CategoryCreate(body);
      if loaded.Err? {
        return Response(400, PError(InvalidCategoryData, FieldDetails(loaded.error)));
      }
      var c := Category(loaded.value.name, loaded.value.userId);
      if c.owner.Some? && c.owner.value !in users {
        return Response(404, PError(UserNotFound, NoDetails));
      }
      var id := nextCategoryId;
      nextCategoryId := nextCategoryId + 1;
      var before := State();
      AddCategoryCommits(before, id, c);
      var ok := Commit(AddCategory(before, id, c));
      if !ok {
        return Response(400, PError(InvalidCategoryData, StorageDetails));
      }
      resp := Response(201, PCategory(ViewOfCategory(id, c)));
    }

    /** `DELETE /category` with the id in the body: the cascade removes the category's records. */
    method DropKind(body: Body) returns (resp: Response)
      requires Valid()
      modifies this
      ensures Valid()
      ensures nextUserId == old(nextUserId) && nextCategoryId == old(nextCategoryId)
      ensures nextRecordId == old(nextRecordId)
      ensures CategoryDelete(body).Err? ==>
                && resp == Response(400, PError(InvalidCategoryId, FieldDetails(CategoryDelete(body).error)))
                && State() == old(State())
      ensures CategoryDelete(body).Ok? && CategoryDelete(body).value !in old(categories) ==>
                resp == Response(404, PError(CategoryNotFound, NoDetails)) && State() == old(State())
      ensures CategoryDelete(body).Ok? && CategoryDelete(body).value in old(categories) ==>
                var cid := CategoryDelete(body).value;
                && resp == Response(200, PCategoryDeleted(DeletedMessage(cid), old(categories)[cid].name))
                && State() == DeleteCategory(old(State()), cid)
    {
      var loaded := CategoryDelete(body);
      if loaded.Err? {
        return Response(400, PError(InvalidCategoryId, FieldDetails(loaded.error)));
      }
      var cid := loaded.value;
      if cid !in categories {
        return Response(404, PError(CategoryNotFound, NoDetails));
      }
      var name := categories[cid].name;
      var before := State();
      DeleteCategoryConsistent(before, cid);
      var ok := Commit(DeleteCategory(before, cid));
      resp := Response(200, PCategoryDeleted(DeletedMessage(cid), name));
    }

    // ----- Records -----

    /** `GET /record/<record_id>`: the path id is validated, then looked up. */
    function ReadEntry(recordId: nat): (r: Response)
      reads this
      ensures recordId == 0 ==>
                r == Response(400, PError(InvalidRecordId, FieldDetails(map["record_id" := AtLeastOne])))
      ensures recordId >= 1 && recordId !in records ==> r == Response(404, PError(RecordNotFound, NoDetails))
      ensures recordId >= 1 && recordId in records ==>
                r == Response(200, PRecord(ViewOfRecord(recordId, records[recordId])))
    {
      PathIdLoads("record_id", RecordIdRequired, recordId);
      match RecordIdPath(map["record_id" := JInt(recordId)])
      case Err(e) => Response(400, PError(InvalidRecordId, FieldDetails(e)))
      case Ok(_) =>
        if recordId !in records then Response(404, PError(RecordNotFound, NoDetails))
        else Response(200, PRecord(ViewOfRecord(recordId, records[recordId])))
    }

    /** `DELETE /record/<record_id>`: answers with the record as it was. */
    method DropEntry(recordId: nat) returns (resp: Response)
      requires Valid()
      modifies this
      ensures Valid()
      ensures nextUserId == old(nextUserId) && nextCategoryId == old(nextCategoryId)
      ensures nextRecordId == old(nextRecordId)
      ensures recordId == 0 ==>
                && resp == Response(400, PError(InvalidRecordId, FieldDetails(map["record_id" := AtLeastOne])))
                && State() == old(State())
      ensures recordId >= 1 && recordId !in old(records) ==>
                resp == Response(404, PError(RecordNotFound, NoDetails)) && State() == old(State())
      ensures recordId >= 1 && recordId in old(records) ==>
                && resp == Response(200, PRecordDeleted(DeletedMessage(recordId),
                                                        ViewOfRecord(recordId, old(records)[recordId])))
                && State() == DeleteRecord(old(State()), recordId)
    {
      PathIdLoads("record_id", RecordIdRequired, recordId);
      var checked := RecordIdPath(map["record_id" := JInt(recordId)]);
      if checked.Err? {
        return Response(400, PError(InvalidRecordId, FieldDetails(checked.error)));
      }
      if recordId !in records {
        return Response(404, PError(RecordNotFound, NoDetails));
      }
      var deleted := ViewOfRecord(recordId, records[recordId]);
      var before := State();
      DeleteRecordConsistent(before, recordId);
      var ok := Commit(DeleteRecord(before, recordId));
      resp := Response(200, PRecordDeleted(DeletedMessage(recordId), deleted));
    }

    /**
      `POST /record`: 400 for the body, 404 for the user, 404 for the category,
      403 for a category another user owns. Once these pass, the commit's
      constraints hold, so the insert always succeeds.
    */
    method CreateEntry(body: Body, parseTime: string -> Option<Timestamp>) returns (resp: Response)
      requires Valid()
      modifies this
      ensures Valid()
      ensures users == old(users) && categories == old(categories)
      ensures nextUserId == old(nextUserId) && nextCategoryId == old(nextCategoryId)
      ensures resp.status != 201 ==> records == old(records) && nextRecordId == old(nextRecordId)
      ensures RecordCreate(body, parseTime).Err? ==>
                resp == Response(400, PError(InvalidRecordData, FieldDetails(RecordCreate(body, parseTime).error)))
      ensures RecordCreate(body, parseTime).Ok? ==>
                var n := RecordCreate(body, parseTime).value;
                && (n.userId !in users ==> resp == Response(404, PError(UserNotFound, NoDetails)))
                && (n.userId in users && n.categoryId !in categories ==>
                      resp == Response(404, PError(CategoryNotFound, NoDetails)))
                && (n.userId in users && n.categoryId in categories && !AvailableTo(categories[n.categoryId], n.userId) ==>
                      resp == Response(403, PError(CategoryNotAvailable, NoDetails)))
                && (n.userId in users && n.categoryId in categories && AvailableTo(categories[n.categoryId], n.userId) ==>
                      var rec := Record(n.userId, n.categoryId, n.datetime, n.amount);
                      && resp == Response(201, PRecordCreated(ViewOfRecord(old(nextRecordId), rec)))
                      && old(nextRecordId) !in old(records)
                      && records == old(records)[old(nextRecordId) := rec]
                      && nextRecordId == old(nextRecordId) + 1)
    {
      var loaded := RecordCreate(body, parseTime);
      if loaded.Err? {
        return Response(400, PError(InvalidRecordData, FieldDetails(loaded.error)));
      }
      var n := loaded.value;
      if n.userId !in users {
        return Response(404, PError(UserNotFound, NoDetails));
      }
      if n.categoryId !in categories {
        return Response(404, PError(CategoryNotFound, NoDetails));
      }
      if !AvailableTo(categories[n.categoryId], n.userId) {
        return Response(403, PError(CategoryNotAvailable, NoDetails));
      }
      var rec := Record(n.userId, n.categoryId, n.datetime, n.amount);
      var id := nextRecordId;
      nextRecordId := nextRecordId + 1;
      var before := State();
      AddRecordCommits(before, id, rec);
      var ok := Commit(AddRecord(before, id, rec));
      resp := Response(201, PRecordCreated(ViewOfRecord(id, rec)));
    }

    /**
      `GET /record`: at least one filter; the filters combine with AND; newest
      first, ties broken by the larger id; `counter` is the number of items.
    */
    function QueryEntries(userId: Option<int>, categoryId: Option<int>): (r: Response)
      requires Valid()
      reads this
      ensures userId.None? && categoryId.None? ==> r == Response(400, PError(FilterRequired, NoDetails))
      ensures (userId.Some? || categoryId.Some?) && !(ValidFilter(userId) && ValidFilter(categoryId)) ==>
                r == Response(400, PError(InvalidQueryParams, FieldDetails(RangeErrors(userId, categoryId))))
      ensures (userId.Some? || categoryId.Some?) && ValidFilter(userId) && ValidFilter(categoryId) ==>
                && r.status == 200 && r.payload.PRecordPage?
                && r.payload.counter == |r.payload.items|
                && NewestFirst(r.payload.items)
                && (forall i, j :: 0 <= i < j < |r.payload.items| ==> r.payload.items[i].id != r.payload.items[j].id)
                && (forall v :: v in r.payload.items <==>
                      && v.id in records && MatchesFilter(records[v.id], userId, categoryId)
                      && v == ViewOfRecord(v.id, records[v.id]))
    {
      if userId.None? && categoryId.None? then Response(400, PError(FilterRequired, NoDetails))
      else
        RecordQueryOfParams(userId, categoryId);
        match RecordQuery(QueryBody(userId, categoryId))
        case Err(e) => Response(400, PError(InvalidQueryParams, FieldDetails(e)))
        case Ok(f) =>
          var items := RecordsMatching(records, f.userId, f.categoryId, nextRecordId);
          Response(200, PRecordPage(items, |items|))
    }
  }

  /** The range messages a query schema gives for integer parameters below 1. */
  function RangeErrors(userId: Option<int>, categoryId: Option<int>): FieldErrors {
    (if userId.Some? && userId.value < 1 then map["user_id" := AtLeastOne] else map[])
    + (if categoryId.Some? && categoryId.value < 1 then map["category_id" := AtLeastOne] else map[])
  }

  /** `CategoryQuerySchema` on the converted query parameter. */
  lemma CategoryQueryOfParam(userId: Option<int>)
    ensures CategoryQuery(QueryBody(userId, None))
         == if ValidFilter(userId) then Ok(userId) else Err(map["user_id" := AtLeastOne])
  {
    var raw := QueryBody(userId, None);
    OptionalIdsErrors(raw, {"user_id"});
    var r := CategoryQuery(raw);
    if r.Err? {
      var e := LoadOptionalIds(raw, {"user_id"}).error;
      assert r.error == e;
      assert e.Keys == {"user_id"} && e["user_id"] == AtLeastOne;
      assert e == map["user_id" := AtLeastOne];
    }
  }

  /** `RecordQuerySchema` on the converted query parameters. */
  lemma RecordQueryOfParams(userId: Option<int>, categoryId: Option<int>)
    ensures RecordQuery(QueryBody(userId, categoryId))
         == if ValidFilter(userId) && ValidFilter(categoryId) then Ok(RecordFilter(userId, categoryId))
            else Err(RangeErrors(userId, categoryId))
  {
    var raw := QueryBody(userId, categoryId);
    OptionalIdsErrors(raw, {"user_id", "category_id"});
    var r := RecordQuery(raw);
    if r.Err? {
      var m := LoadOptionalIds(raw, {"user_id", "category_id"}).error;
      assert r.error == m;
      var e := RangeErrors(userId, categoryId);
      RangeErrorsOfBody(userId, categoryId);
      assert m.Keys == e.Keys;
      assert m == e;
    }
  }

  /** The range messages are keyed by the parameters of the converted body that are below 1. */
  lemma RangeErrorsOfBody(userId: Option<int>, categoryId: Option<int>)
    ensures var raw := QueryBody(userId, categoryId);
            && (forall k :: k in RangeErrors(userId, categoryId) <==> k in raw && raw[k].i < 1)
            && forall k :: k in RangeErrors(userId, categoryId) ==> RangeErrors(userId, categoryId)[k] == AtLeastOne
  {
  }

  /**
    `WHERE owner_id IS NULL` or `WHERE owner_id = :uid`, `ORDER BY id ASC`, as
    views.
  */
  function CategoriesOwnedBy(table: map<int, Category>, owner: Option<int>, hi: int): (views: seq<CategoryView>)
    requires forall c :: c in table ==> 1 <= c < hi
    ensures forall i, j :: 0 <= i < j < |views| ==> views[i].id < views[j].id
    ensures forall v :: v in views <==>
              v.id in table && table[v.id].owner == owner && v == ViewOfCategory(v.id, table[v.id])
  {
    CategoryScan(table, owner, 1, hi)
  }

  /** The categories of `owner` with ids in `[lo, hi)`, ascending. */
  function CategoryScan(table: map<int, Category>, owner: Option<int>, lo: int, hi: int): (views: seq<CategoryView>)
    ensures forall i :: 0 <= i < |views| ==> lo <= views[i].id
    ensures forall i, j :: 0 <= i < j < |views| ==> views[i].id < views[j].id
    ensures forall v :: v in views <==>
              lo <= v.id < hi && v.id in table && table[v.id].owner == owner && v == ViewOfCategory(v.id, table[v.id])
    decreases hi - lo
  {
    if lo >= hi then []
    else if lo in table && table[lo].owner == owner then [ViewOfCategory(lo, table[lo])] + CategoryScan(table, owner, lo + 1, hi)
    else CategoryScan(table, owner, lo + 1, hi)
  }

  /**
    The records matching both optional filters, `ORDER BY datetime DESC, id DESC`,
    as views.
  */
  function RecordsMatching(table: map<int, Record>, userId: Option<int>, categoryId: Option<int>, hi: int)
    : (items: seq<RecordView>)
    requires forall r :: r in table ==> 1 <= r < hi
    ensures NewestFirst(items)
    ensures forall i, j :: 0 <= i < j < |items| ==> items[i].id != items[j].id
    ensures forall v :: v in items <==>
              v.id in table && MatchesFilter(table[v.id], userId, categoryId) && v == ViewOfRecord(v.id, table[v.id])
  {
    var views := RecordScan(table, userId, categoryId, 1, hi);
    var items := SortNewestFirst(views);
    SameMembers(items, views);
    DistinctAfterSort(views, items);
    items
  }

  /** The records matching both filters with ids in `[lo, hi)`, ascending by id. */
  function RecordScan(table: map<int, Record>, userId: Option<int>, categoryId: Option<int>, lo: int, hi: int)
    : (views: seq<RecordView>)
    ensures forall i :: 0 <= i < |views| ==> lo <= views[i].id
    ensures forall i, j :: 0 <= i < j < |views| ==> views[i].id < views[j].id
    ensures forall v :: v in views <==>
              lo <= v.id < hi && v.id in table && MatchesFilter(table[v.id], userId, categoryId)
              && v == ViewOfRecord(v.id, table[v.id])
    decreases hi - lo
  {
    if lo >= hi then []
    else if lo in table && MatchesFilter(table[lo], userId, categoryId) then
      [ViewOfRecord(lo, table[lo])] + RecordScan(table, userId, categoryId, lo + 1, hi)
    else RecordScan(table, userId, categoryId, lo + 1, hi)
  }

  /** Sorting does not introduce repeated ids. */
  lemma DistinctAfterSort(a: seq<RecordView>, b: seq<RecordView>)
    requires multiset(a) == multiset(b)
    requires forall i, j :: 0 <= i < j < |a| ==> a[i].id != a[j].id
    ensures forall i, j :: 0 <= i < j < |b| ==> b[i].id != b[j].id
  {
    IdsDetermineViews(a);
    forall i, j | 0 <= i < j < |b| ensures b[i].id != b[j].id {
      assert b[i] in multiset(b) && b[j] in multiset(b);
      assert b[i] in a && b[j] in a;
      CountOfRepeat(b, i, j);
      ViewsOccurOnce(a, b[i]);
    }
  }

  /** In a sequence whose ids are distinct, the id picks out the view. */
  lemma IdsDetermineViews(a: seq<RecordView>)
    requires forall i, j :: 0 <= i < j < |a| ==> a[i].id != a[j].id
    ensures forall x, y :: x in a && y in a && x.id == y.id ==> x == y
  {
    forall x, y | x in a && y in a && x.id == y.id ensures x == y {
      var p :| 0 <= p < |a| && a[p] == x;
      var q :| 0 <= q < |a| && a[q] == y;
    }
  }

  /** An element at two positions is counted at least twice. */
  lemma CountOfRepeat(b: seq<RecordView>, i: int, j: int)
    requires 0 <= i < j < |b|
    ensures b[i] == b[j] ==> multiset(b)[b[i]] >= 2
  {
    var x := b[i];
    assert b == b[..i] + [b[i]] + b[i + 1..j] + [b[j]] + b[j + 1..];
    assert multiset(b) == multiset(b[..i]) + multiset{b[i]} + multiset(b[i + 1..j]) + multiset{b[j]} + multiset(b[j + 1..]);
  }

  /** A sequence with distinct ids holds each view at most once. */
  lemma {:induction false} ViewsOccurOnce(a: seq<RecordView>, v: RecordView)
    requires forall i, j :: 0 <= i < j < |a| ==> a[i].id != a[j].id
    ensures multiset(a)[v] <= 1
  {
    if a != [] {
      var t := a[1..];
      assert a == [a[0]] + t;
      ViewsOccurOnce(t, v);
      forall k | 0 <= k < |t| ensures t[k].id != a[0].id {
        assert t[k] == a[k + 1];
      }
      assert a[0] == v ==> v !in t;
    }
  }
}
