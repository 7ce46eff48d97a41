/**
  Client sessions against a fresh store, each a sequence of handler calls whose
  responses follow from the handlers' contracts alone.
*/
module Scenarios {
  import opened Wrappers
  import opened Json
  import opened Text
  import opened Decimals
  import opened Time
  import opened Schemas
  import opened Models
  import opened Views

  lemma StripExamples()
    ensures Strip("Nazar") == "Nazar"
    ensures Strip("  Nazar ") == "Nazar"
    ensures Strip("Food") == "Food"
    ensures Strip("Olena") == "Olena"
    ensures Strip("420.75") == "420.75"
    ensures Strip(Moment) == Moment
  {
    StripFixed("Nazar");
    StripFixed("Food");
    StripFixed("Olena");
    StripFixed("420.75");
    StripFixed(Moment);
    assert "  Nazar "[1..] == " Nazar ";
    assert " Nazar "[1..] == "Nazar ";
    assert "Nazar "[..5] == "Nazar";
  }

  function NameBody(name: string): Body {
    map["name" := JStr(name)]
  }

  /** The ISO-8601 moment the sessions below record, and its parse. */
  const Moment := "2025-10-10T12:00:00+00:00"
  const MomentValue: Timestamp := 1760097600

  function ParseMoment(s: string): Option<Timestamp> {
    if s == Moment then Some(MomentValue) else None
  }

  function RecordBody(userId: int, categoryId: int, amount: string): Body {
    map["user_id" := JInt(userId), "category_id" := JInt(categoryId),
        "datetime" := JStr(Moment), "amount" := JStr(amount)]
  }

  /** A valid body for user 1, category 1, amount "420.75" loads as expected. */
  lemma RecordBodyLoads(userId: int, categoryId: int)
    requires userId >= 1 && categoryId >= 1
    ensures RecordCreate(RecordBody(userId, categoryId, "420.75"), ParseMoment)
         == Ok(NewRecord(userId, categoryId, MomentValue, Finite(false, 42075, -2)))
  {
    var body := RecordBody(userId, categoryId, "420.75");
    StripExamples();
    ParseAmountExample();
    assert body.Keys == RecordCreateFields;
    RecordCreateAccepts(body, ParseMoment);
  }

  /** `{"name": "Food"}`, with `"user_id"` when an owner is given. */
  function FoodBody(owner: Option<int>): Body {
    if owner.Some? then map["name" := JStr("Food"), "user_id" := JInt(owner.value)] else NameBody("Food")
  }

  lemma FoodBodyLoads(owner: Option<int>)
    requires owner.None? || owner.value >= 1
    ensures CategoryCreate(FoodBody(owner)) == Ok(NewCategory("Food", owner))
  {
    StripExamples();
  }

  /** On an empty store, user "Nazar" gets id 1. */
  method CreateNazar(store: Store) returns (resp: Response)
    requires store.Valid() && store.users == map[] && store.nextUserId == 1
    modifies store
    ensures store.Valid()
    ensures resp == Response(201, PUser(UserView(1, "Nazar")))
    ensures store.users == map[1 := User("Nazar")] && store.nextUserId == 2
    ensures store.categories == old(store.categories) && store.records == old(store.records)
    ensures store.nextCategoryId == old(store.nextCategoryId) && store.nextRecordId == old(store.nextRecordId)
  {
    StripExamples();
    resp := store.CreatePerson(NameBody("Nazar"));
  }

  /** With only "Nazar" stored, user "Olena" gets id 2. */
  method CreateOlena(store: Store) returns (resp: Response)
    requires store.Valid() && store.users == map[1 := User("Nazar")] && store.nextUserId == 2
    modifies store
    ensures store.Valid()
    ensures resp == Response(201, PUser(UserView(2, "Olena")))
    ensures store.users == map[1 := User("Nazar"), 2 := User("Olena")] && store.nextUserId == 3
    ensures store.categories == old(store.categories) && store.records == old(store.records)
    ensures store.nextCategoryId == old(store.nextCategoryId) && store.nextRecordId == old(store.nextRecordId)
  {
    StripExamples();
    assert !NameTaken(store.users, "Olena");
    resp := store.CreatePerson(NameBody("Olena"));
  }

  /**
    A "Food" category, global or owned, in a store whose categories do not yet
    hold one of that scope.
  */
  method CreateFood(store: Store, owner: Option<int>) returns (resp: Response)
    requires store.Valid()
    requires owner.None? || (owner.value >= 1 && owner.value in store.users)
    requires forall k :: k in store.categories ==> store.categories[k].owner != owner
    modifies store
    ensures store.Valid()
    ensures resp == Response(201, PCategory(CategoryView(old(store.nextCategoryId), "Food", owner)))
    ensures store.categories == old(store.categories)[old(store.nextCategoryId) := Category("Food", owner)]
    ensures store.nextCategoryId == old(store.nextCategoryId) + 1
    ensures store.users == old(store.users) && store.records == old(store.records)
    ensures store.nextUserId == old(store.nextUserId) && store.nextRecordId == old(store.nextRecordId)
  {
    FoodBodyLoads(owner);
    assert !ScopeTaken(store.categories, Category("Food", owner));
    resp := store.CreateKind(FoodBody(owner));
  }

  /** Creating "Nazar" twice (the second time padded with spaces): 201, then 400 from the unique index. */
  method DuplicateName() returns (first: Response, second: Response)
    ensures first == Response(201, PUser(UserView(1, "Nazar")))
    ensures second == Response(400, PError(InvalidUserData, StorageDetails))
  {
    StripExamples();
    var store := new Store();
    first := store.CreatePerson(NameBody("Nazar"));
    assert store.users[1].name == "Nazar";
    second := store.CreatePerson(NameBody("  Nazar "));
  }

  /** A name of only spaces is refused by the `strip_name` hook, before any field rule. */
  lemma BlankNameRefused()
    ensures UserCreate(NameBody("   ")) == Err(map[SchemaKey := StringEmpty])
  {
    assert AllSpace("   ");
  }

  /**
    A user, a global category, a record: then the record reads back, lists under
    its user, and goes away with the user.
  */
  method RecordLifecycle() returns (read: Response, listed: Response, dropped: Response, after: Response)
    ensures read == Response(200, PRecord(RecordView(1, 1, 1, MomentValue, Finite(false, 42075, -2))))
    ensures listed == Response(200, PRecordPage([RecordView(1, 1, 1, MomentValue, Finite(false, 42075, -2))], 1))
    ensures dropped == Response(200, PUserDeleted(DeletedMessage(1), "Nazar"))
    ensures after == Response(404, PError(RecordNotFound, NoDetails))
  {
    var store := new Store();
    var u := CreateNazar(store);
    var c := CreateFood(store, None);
    RecordBodyLoads(1, 1);
    var r := store.CreateEntry(RecordBody(1, 1, "420.75"), ParseMoment);
    read := store.ReadEntry(1);
    listed := store.QueryEntries(Some(1), None);
    OnlyMatch(listed.payload.items, RecordView(1, 1, 1, MomentValue, Finite(false, 42075, -2)));
    dropped := store.DropPerson(1);
    after := store.ReadEntry(1);
  }

  /** A listing with distinct ids whose only member is `v` is `[v]`. */
  lemma OnlyMatch(items: seq<RecordView>, v: RecordView)
    requires forall x :: x in items <==> x == v
    requires forall i, j :: 0 <= i < j < |items| ==> items[i].id != items[j].id
    ensures items == [v]
  {
    assert v in items;
    forall i | 0 <= i < |items| ensures items[i] == v {
      assert items[i] in items;
    }
    assert |items| >= 2 ==> items[0].id != items[1].id;
  }

  /** A record in a category that another user owns is refused with 403 and nothing is stored. */
  method ForeignCategory() returns (resp: Response, stored: map<int, Record>)
    ensures resp == Response(403, PError(CategoryNotAvailable, NoDetails))
    ensures stored == map[]
  {
    var store := new Store();
    var nazar := CreateNazar(store);
    var olena := CreateOlena(store);
    var c := CreateFood(store, Some(1));
    RecordBodyLoads(2, 1);
    resp := store.CreateEntry(RecordBody(2, 1, "420.75"), ParseMoment);
    stored := store.records;
  }

  /** The same name as a global category and as a private one: both are created. */
  method TwoScopes() returns (global: Response, owned: Response)
    ensures global == Response(201, PCategory(CategoryView(1, "Food", None)))
    ensures owned == Response(201, PCategory(CategoryView(2, "Food", Some(1))))
  {
    var store := new Store();
    var nazar := CreateNazar(store);
    global := CreateFood(store, None);
    owned := CreateFood(store, Some(1));
  }

  /** Path id 0 fails the path schema; nothing is looked up. */
  method ZeroPathId() returns (resp: Response)
    ensures resp == Response(400, PError(InvalidUserId, FieldDetails(map["user_id" := AtLeastOne])))
  {
    var store := new Store();
    resp := store.DropPerson(0);
  }

  /** A query with no filter is refused before the schema runs. */
  method UnfilteredQuery() returns (resp: Response)
    ensures resp == Response(400, PError(FilterRequired, NoDetails))
  {
    var store := new Store();
    resp := store.QueryEntries(None, None);
  }
}
