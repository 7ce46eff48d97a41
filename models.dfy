/**
  The three tables of the bookkeeping store and the constraints the database
  declares on them: column widths, the unique user name, the two uniqueness
  scopes of category names, the foreign keys with their ON DELETE CASCADE
  rules, and the `amount > 0` check.
*/
module Models {
  import opened Wrappers
  import opened Decimals
  import opened Time

  /** `String(64)` columns. */
  const NameColumnWidth := 64

  datatype User = User(name: string)

  /** A category with no owner is global; otherwise it belongs to the owner. */
  datatype Category = Category(name: string, owner: Option<int>)

  datatype Record = Record(userId: int, categoryId: int, datetime: Timestamp, amount: Decimal)

  /** The rows of `users`, `categories` and `records`, keyed by primary key. */
  datatype Tables = Tables(users: map<int, User>, categories: map<int, Category>, records: map<int, Record>)

  // ----- The declared constraints -----

  /**
    `name = String(64), nullable=False` on both tables. The model treats an
    over-long name as a failed commit; PostgreSQL would raise a DataError there,
    which the handlers' `except IntegrityError` does not catch. The schemas bound
    every name to 64 characters first, so no handler reaches that case.
  */
  predicate NamesFit(t: Tables) {
    && (forall u :: u in t.users ==> |t.users[u].name| <= NameColumnWidth)
    && (forall c :: c in t.categories ==> |t.categories[c].name| <= NameColumnWidth)
  }

  /** `users.name` is `unique=True`. */
  predicate UniqueUserNames(users: map<int, User>) {
    forall a, b :: a in users && b in users && users[a].name == users[b].name ==> a == b
  }

  /** A user already holds `name`. */
  predicate NameTaken(users: map<int, User>, name: string) {
    exists u :: u in users && users[u].name == name
  }

  /** `owner_id` references `users.id`. */
  predicate OwnersExist(t: Tables) {
    forall c :: c in t.categories && t.categories[c].owner.Some? ==> t.categories[c].owner.value in t.users
  }

  /** `UniqueConstraint("owner_id", "name")`: among owned categories (a NULL owner never clashes). */
  predicate OwnedNamesUnique(categories: map<int, Category>) {
    forall a, b ::
      (a in categories && b in categories && categories[a].owner.Some?
       && categories[a].owner == categories[b].owner && categories[a].name == categories[b].name)
      ==> a == b
  }

  /** The partial unique index on `name` where `owner_id IS NULL`: among global categories. */
  predicate GlobalNamesUnique(categories: map<int, Category>) {
    forall a, b ::
      (a in categories && b in categories && categories[a].owner.None? && categories[b].owner.None?
       && categories[a].name == categories[b].name)
      ==> a == b
  }

  /** A category in the same scope as `c` already holds its name. */
  predicate ScopeTaken(categories: map<int, Category>, c: Category) {
    exists k :: k in categories && categories[k].owner == c.owner && categories[k].name == c.name
  }

  /** `records.user_id` and `records.category_id` are non-null references. */
  predicate RecordsReference(t: Tables) {
    forall r :: r in t.records ==> t.records[r].userId in t.users && t.records[r].categoryId in t.categories
  }

  /** `CheckConstraint("amount > 0")`. */
  predicate AmountsPositive(records: map<int, Record>) {
    forall r :: r in records ==> IsPositive(records[r].amount)
  }

  /** Every constraint the database checks at commit. */
  predicate Consistent(t: Tables) {
    && NamesFit(t)
    && UniqueUserNames(t.users)
    && OwnersExist(t)
    && OwnedNamesUnique(t.categories)
    && GlobalNamesUnique(t.categories)
    && RecordsReference(t)
    && AmountsPositive(t.records)
  }

  /**
    The rule the handlers keep and the database does not: a record's category is
    global or owned by the record's own user.
  */
  predicate OwnershipRule(t: Tables) {
    forall r :: r in t.records && t.records[r].categoryId in t.categories ==>
      var owner := t.categories[t.records[r].categoryId].owner;
      owner.None? || owner == Some(t.records[r].userId)
  }

  /** The category may hold records of `userId`. */
  predicate AvailableTo(c: Category, userId: int) {
    c.owner.None? || c.owner == Some(userId)
  }

  // ----- Deletion with ON DELETE CASCADE -----

  /** Deleting a category: its records go with it. */
  function DeleteCategory(t: Tables, cid: int): Tables {
    Tables(t.users,
           map c | c in t.categories && c != cid :: t.categories[c],
           map r | r in t.records && t.records[r].categoryId != cid :: t.records[r])
  }

  /**
    Deleting a user: their records, the categories they own and the records of
    those categories go with them.
  */
  function DeleteUser(t: Tables, uid: int): Tables {
    var keep := map c | c in t.categories && t.categories[c].owner != Some(uid) :: t.categories[c];
    Tables(map u | u in t.users && u != uid :: t.users[u],
           keep,
           map r | r in t.records && t.records[r].userId != uid && t.records[r].categoryId in keep :: t.records[r])
  }

  function DeleteRecord(t: Tables, rid: int): Tables {
    Tables(t.users, t.categories, map r | r in t.records && r != rid :: t.records[r])
  }

  // ----- Inserts -----

  function AddUser(t: Tables, id: int, u: User): Tables {
    t.(users := t.users[id := u])
  }

  function AddCategory(t: Tables, id: int, c: Category): Tables {
    t.(categories := t.categories[id := c])
  }

  function AddRecord(t: Tables, id: int, r: Record): Tables {
    t.(records := t.records[id := r])
  }

  // ----- What the constraints mean for each change -----

  /** Removing rows from `t` keeps every constraint that only forbids rows. */
  lemma SubTablesConsistent(t: Tables, s: Tables)
    requires Consistent(t)
    requires s.users.Keys <= t.users.Keys && s.categories.Keys <= t.categories.Keys && s.records.Keys <= t.records.Keys
    requires forall u :: u in s.users ==> s.users[u] == t.users[u]
    requires forall c :: c in s.categories ==> s.categories[c] == t.categories[c]
    requires forall r :: r in s.records ==> s.records[r] == t.records[r]
    requires OwnersExist(s) && RecordsReference(s)
    ensures Consistent(s)
    ensures OwnershipRule(t) ==> OwnershipRule(s)
  {
  }

  /** The cascade of a user delete leaves a consistent database that no longer mentions the user. */
  lemma DeleteUserConsistent(t: Tables, uid: int)
    requires Consistent(t)
    ensures Consistent(DeleteUser(t, uid))
    ensures OwnershipRule(t) ==> OwnershipRule(DeleteUser(t, uid))
    ensures var s := DeleteUser(t, uid);
            && uid !in s.users
            && (forall c :: c in s.categories ==> s.categories[c].owner != Some(uid))
            && (forall r :: r in s.records ==> s.records[r].userId != uid)
  {
    var s := DeleteUser(t, uid);
    assert OwnersExist(s);
    assert RecordsReference(s);
    SubTablesConsistent(t, s);
  }

  /** What a user delete removes: exactly the user, their categories, and every record hanging off either. */
  lemma DeleteUserRemoves(t: Tables, uid: int)
    requires Consistent(t)
    ensures var s := DeleteUser(t, uid);
            && (forall u :: u in t.users ==> (u in s.users <==> u != uid))
            && (forall c :: c in t.categories ==> (c in s.categories <==> t.categories[c].owner != Some(uid)))
            && (forall r :: r in t.records ==>
                  (r in s.records <==> t.records[r].userId != uid
                                       && t.categories[t.records[r].categoryId].owner != Some(uid)))
            && (forall u :: u in s.users ==> u in t.users && s.users[u] == t.users[u])
            && (forall c :: c in s.categories ==> c in t.categories && s.categories[c] == t.categories[c])
            && (forall r :: r in s.records ==> r in t.records && s.records[r] == t.records[r])
  {
  }

  /** The cascade of a category delete leaves a consistent database. */
  lemma DeleteCategoryConsistent(t: Tables, cid: int)
    requires Consistent(t)
    ensures Consistent(DeleteCategory(t, cid))
    ensures OwnershipRule(t) ==> OwnershipRule(DeleteCategory(t, cid))
    ensures var s := DeleteCategory(t, cid);
            && s.users == t.users
            && s.categories.Keys == t.categories.Keys - {cid}
            && (forall r :: r in t.records ==> (r in s.records <==> t.records[r].categoryId != cid))
            && (forall c :: c in s.categories ==> s.categories[c] == t.categories[c])
            && (forall r :: r in s.records ==> r in t.records && s.records[r] == t.records[r])
  {
    var s := DeleteCategory(t, cid);
    assert OwnersExist(s);
    assert RecordsReference(s);
    SubTablesConsistent(t, s);
  }

  /** Deleting a record removes that row and nothing else. */
  lemma DeleteRecordConsistent(t: Tables, rid: int)
    requires Consistent(t)
    ensures Consistent(DeleteRecord(t, rid))
    ensures OwnershipRule(t) ==> OwnershipRule(DeleteRecord(t, rid))
    ensures var s := DeleteRecord(t, rid);
            && s.users == t.users && s.categories == t.categories && s.records.Keys == t.records.Keys - {rid}
            && forall r :: r in s.records ==> s.records[r] == t.records[r]
  {
    var s := DeleteRecord(t, rid);
    assert OwnersExist(s);
    assert RecordsReference(s);
    SubTablesConsistent(t, s);
  }

  /** Inserting a user commits exactly when the name fits and is free. */
  lemma AddUserCommits(t: Tables, id: int, u: User)
    requires Consistent(t) && id !in t.users
    ensures Consistent(AddUser(t, id, u)) <==> |u.name| <= NameColumnWidth && !NameTaken(t.users, u.name)
    ensures Consistent(AddUser(t, id, u)) && OwnershipRule(t) ==> OwnershipRule(AddUser(t, id, u))
  {
    var s := AddUser(t, id, u);
    if NameTaken(t.users, u.name) {
      var v :| v in t.users && t.users[v].name == u.name;
      assert s.users[v].name == s.users[id].name;
    } else if |u.name| > NameColumnWidth {
      assert |s.users[id].name| > NameColumnWidth;
    } else {
      assert NamesFit(s);
      assert UniqueUserNames(s.users);
      assert OwnersExist(s);
      assert RecordsReference(s);
    }
    assert OwnershipRule(t) ==> OwnershipRule(s);
  }

  /**
    Inserting a category commits exactly when the name fits, the owner (if any)
    exists, and no category of the same scope holds the name.
  */
  lemma AddCategoryCommits(t: Tables, id: int, c: Category)
    requires Consistent(t) && id !in t.categories
    ensures Consistent(AddCategory(t, id, c))
        <==> |c.name| <= NameColumnWidth && (c.owner.Some? ==> c.owner.value in t.users)
             && !ScopeTaken(t.categories, c)
    ensures Consistent(AddCategory(t, id, c)) && OwnershipRule(t) ==> OwnershipRule(AddCategory(t, id, c))
  {
    var s := AddCategory(t, id, c);
    if ScopeTaken(t.categories, c) {
      var k :| k in t.categories && t.categories[k].owner == c.owner && t.categories[k].name == c.name;
      assert k != id;
      if c.owner.Some? {
        assert !OwnedNamesUnique(s.categories) by {
          assert s.categories[k].owner == s.categories[id].owner && s.categories[k].name == s.categories[id].name;
        }
      } else {
        assert !GlobalNamesUnique(s.categories) by {
          assert s.categories[k].owner.None? && s.categories[id].owner.None?;
          assert s.categories[k].name == s.categories[id].name;
        }
      }
    }
    if c.owner.Some? && c.owner.value !in t.users {
      assert s.categories[id].owner.Some? && s.categories[id].owner.value !in s.users;
    }
    if |c.name| > NameColumnWidth {
      assert |s.categories[id].name| > NameColumnWidth;
    }
    forall r | r in s.records ensures s.records[r].categoryId in t.categories ==>
      s.categories[s.records[r].categoryId] == t.categories[s.records[r].categoryId]
    {
    }
  }

  /**
    Inserting a record commits exactly when its user and category exist and its
    amount is positive.
  */
  lemma AddRecordCommits(t: Tables, id: int, r: Record)
    requires Consistent(t) && id !in t.records
    ensures Consistent(AddRecord(t, id, r))
        <==> r.userId in t.users && r.categoryId in t.categories && IsPositive(r.amount)
    ensures (OwnershipRule(t) && r.categoryId in t.categories && AvailableTo(t.categories[r.categoryId], r.userId))
            ==> OwnershipRule(AddRecord(t, id, r))
  {
    var s := AddRecord(t, id, r);
    assert s.records[id] == r;
  }

  // ----- Concrete states -----

  /** One name may be global once and private once for each of several owners. */
  lemma TwoScopesExample()
    ensures Consistent(Tables(map[1 := User("Nazar"), 2 := User("Olena")],
                              map[1 := Category("Food", None), 2 := Category("Food", Some(1)),
                                  3 := Category("Food", Some(2))],
                              map[]))
  {
  }

  /** A second global category with the same name is refused. */
  lemma DuplicateGlobalExample()
    ensures !Consistent(Tables(map[], map[1 := Category("Food", None), 2 := Category("Food", None)], map[]))
  {
    var cs := map[1 := Category("Food", None), 2 := Category("Food", None)];
    assert cs[1].owner.None? && cs[2].owner.None? && cs[1].name == cs[2].name;
  }
}
