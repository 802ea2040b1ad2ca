/** The `seed_data` management command (core/management/commands/seed_data.py):
    categories, worker users with their profiles, customers and reviews, each
    inserted through a keyed `get_or_create`, so that a second run finds every
    row it would insert and changes nothing. The random draws of the command
    are an input. */
module Seed {
  import opened Wrappers
  import opened Store
  import Reviews

  /** How a step of the command ends: with a value, or with a raised exception. */
  datatype Outcome<+T> = Done(value: T) | Raised(error: string)

  const MULTIPLE_OBJECTS_RETURNED := "MultipleObjectsReturned"
  const INDEX_ERROR := "IndexError"
  const SEED_PASSWORD := "seedpass123"

  /** The centre of Jaffna; seeded workers are placed at offsets from it. */
  const JAFFNA_LAT: real := 9.6615
  const JAFFNA_LNG: real := 80.0255
  const OFFSET_SCALE: real := 0.02

  /** One entry of the worker list: the user's fields, the category slug and the profile's fields. */
  datatype WorkerSeed = WorkerSeed(
    username: string, firstName: string, lastName: string, email: string, phone: string,
    categorySlug: string, experienceYears: int, isVerified: bool, dLat: real, dLng: real,
    description: string)

  datatype CustomerSeed = CustomerSeed(username: string, email: string, firstName: string, lastName: string)

  datatype ReviewTemplate = ReviewTemplate(rating: int, comment: string)

  /** What the seeded random generator yields for one review: the index of the
      customer drawn by `random.sample` and of the template drawn by `random.choice`. */
  datatype ReviewDraw = ReviewDraw(customer: nat, choice: nat)

  /** A set with one element is that element's singleton. */
  lemma {:induction false} Singleton<T>(s: set<T>, x: T)
    requires |s| == 1 && x in s
    ensures s == {x}
  {
    var rest := s - {x};
    assert |rest| == 0;
    assert rest == {};
  }

  // ---------------------------------------------------------------------
  // Keyed get_or_create on each table

  predicate HasSlug(categories: map<Id, CategoryRow>, slug: string) {
    exists k :: k in categories && categories[k].slug == slug
  }

  /** `Category.objects.get_or_create(slug=row.slug, defaults=row)` */
  method GetOrCreateCategory(db: Database, row: CategoryRow) returns (id: Id)
    requires db.Valid()
    modifies db
    ensures db.Valid()
    ensures id in db.categories && db.categories[id].slug == row.slug
    ensures HasSlug(old(db.categories), row.slug) ==>
      id in old(db.categories) && db.categories == old(db.categories) && db.nextId == old(db.nextId)
    ensures !HasSlug(old(db.categories), row.slug) ==>
      id !in old(db.categories) && db.categories == old(db.categories)[id := row]
    ensures db.users == old(db.users) && db.workers == old(db.workers) && db.reviews == old(db.reviews)
  {
    if k :| k in db.categories && db.categories[k].slug == row.slug {
      id := k;
    } else {
      id := db.AddCategory(row);
    }
  }

  predicate HasUsername(users: map<Id, UserRow>, username: string) {
    exists k :: k in users && users[k].username == username
  }

  /** `if not user.password: user.set_password(SEED_PASSWORD)`: a blank password
      is replaced by the seed password, any other is kept. */
  function WithSeedPassword(u: UserRow): (v: UserRow)
    ensures v.password != Blank
    ensures u.password != Blank ==> v == u
    ensures u.password == Blank ==> v == u.(password := Hashed(SEED_PASSWORD))
  {
    if u.password == Blank then u.(password := Hashed(SEED_PASSWORD)) else u
  }

  /** `User.objects.get_or_create(username=row.username, defaults=...)` followed
      by the password step shared by workers and customers. */
  method EnsureUser(db: Database, row: UserRow) returns (id: Id)
    requires db.Valid()
    modifies db
    ensures db.Valid()
    ensures id in db.users && db.users[id].username == row.username && db.users[id].password != Blank
    ensures HasUsername(old(db.users), row.username) ==>
      id in old(db.users) && db.users == old(db.users)[id := WithSeedPassword(old(db.users)[id])]
      && db.nextId == old(db.nextId)
    ensures !HasUsername(old(db.users), row.username) ==>
      id !in old(db.users) && db.users == old(db.users)[id := WithSeedPassword(row)]
    ensures UsersKept(old(db.users), db.users)
    ensures db.categories == old(db.categories) && db.workers == old(db.workers) && db.reviews == old(db.reviews)
  {
    if k :| k in db.users && db.users[k].username == row.username {
      id := k;
    } else {
      id := db.AddUser(row);
    }
    db.users := db.users[id := WithSeedPassword(db.users[id])];
  }

  /** `Worker.objects.get_or_create(user=row.user, defaults=...)`: the user key
      is not unique, so two profiles of one user make it raise. */
  method GetOrCreateWorker(db: Database, row: WorkerRow) returns (o: Outcome<Id>)
    requires db.Valid()
    requires row.user in db.users && (row.category.Some? ==> row.category.value in db.categories)
    modifies db
    ensures db.Valid()
    ensures |WorkersOf(old(db.workers), row.user)| > 1 ==>
      o == Raised(MULTIPLE_OBJECTS_RETURNED) && db.workers == old(db.workers)
    ensures |WorkersOf(old(db.workers), row.user)| == 1 ==>
      o.Done? && o.value in old(db.workers) && db.workers == old(db.workers) && db.nextId == old(db.nextId)
    ensures |WorkersOf(old(db.workers), row.user)| == 0 ==>
      o.Done? && o.value !in old(db.workers) && db.workers == old(db.workers)[o.value := row]
    ensures o.Done? ==> WorkersOf(db.workers, row.user) == {o.value}
    ensures db.users == old(db.users) && db.categories == old(db.categories) && db.reviews == old(db.reviews)
  {
    var found := WorkersOf(db.workers, row.user);
    if |found| == 0 {
      var id := db.AddWorker(row);
      WorkersOfAdd(old(db.workers), id, row, row.user);
      assert found == {};
      o := Done(id);
    } else if |found| == 1 {
      var w :| w in found;
      Singleton(found, w);
      o := Done(w);
    } else {
      o := Raised(MULTIPLE_OBJECTS_RETURNED);
    }
  }

  /** `Review.objects.get_or_create(worker=row.worker, author=row.author, defaults=...)`:
      nothing makes the pair unique, so two reviews of one pair make it raise. */
  method GetOrCreateReview(db: Database, row: ReviewRow) returns (o: Outcome<Id>)
    requires db.Valid()
    modifies db
    ensures db.Valid()
    ensures |ReviewsBetween(old(db.reviews), row.worker, row.author)| > 1 ==>
      o == Raised(MULTIPLE_OBJECTS_RETURNED) && db.reviews == old(db.reviews)
    ensures |ReviewsBetween(old(db.reviews), row.worker, row.author)| == 1 ==>
      o.Done? && o.value in old(db.reviews) && db.reviews == old(db.reviews) && db.nextId == old(db.nextId)
    ensures |ReviewsBetween(old(db.reviews), row.worker, row.author)| == 0 ==>
      o.Done? && o.value !in old(db.reviews) && db.reviews == old(db.reviews)[o.value := row]
    ensures o.Done? ==> ReviewsBetween(db.reviews, row.worker, row.author) == {o.value}
    ensures db.users == old(db.users) && db.categories == old(db.categories) && db.workers == old(db.workers)
  {
    var found := ReviewsBetween(db.reviews, row.worker, row.author);
    if |found| == 0 {
      var id := db.AddReview(row);
      ReviewsBetweenAdd(old(db.reviews), id, row, row.worker, row.author);
      assert found == {};
      o := Done(id);
    } else if |found| == 1 {
      var r :| r in found;
      Singleton(found, r);
      o := Done(r);
    } else {
      o := Raised(MULTIPLE_OBJECTS_RETURNED);
    }
  }

  // ---------------------------------------------------------------------
  // create_categories

  /** `cats[i]` is a stored category with the slug of `data[i]`. */
  predicate CategoriesSeeded(categories: map<Id, CategoryRow>, data: seq<CategoryRow>, cats: seq<Id>) {
    |cats| == |data| && forall i | 0 <= i < |cats| :: cats[i] in categories && categories[cats[i]].slug == data[i].slug
  }

  /** `create_categories`: one `get_or_create` by slug per entry of `data`.
      Rows already stored are never altered; on a database that already holds
      every slug it returns the stored keys (`expected`) and changes nothing. */
  method CreateCategories(db: Database, data: seq<CategoryRow>, ghost expected: seq<Id>) returns (cats: seq<Id>)
    requires db.Valid()
    modifies db
    ensures db.Valid()
    ensures CategoriesSeeded(db.categories, data, cats)
    ensures forall k | k in old(db.categories) :: k in db.categories && db.categories[k] == old(db.categories)[k]
    ensures CategoriesSeeded(old(db.categories), data, expected) ==>
      cats == expected && db.categories == old(db.categories) && db.nextId == old(db.nextId)
    ensures db.users == old(db.users) && db.workers == old(db.workers) && db.reviews == old(db.reviews)
  {
    cats := [];
    var i := 0;
    while i < |data|
      invariant 0 <= i <= |data| && |cats| == i
      invariant db.Valid()
      invariant CategoriesSeeded(db.categories, data[..i], cats)
      invariant forall k | k in old(db.categories) :: k in db.categories && db.categories[k] == old(db.categories)[k]
      invariant CategoriesSeeded(old(db.categories), data, expected) ==>
        cats == expected[..i] && db.categories == old(db.categories) && db.nextId == old(db.nextId)
      invariant db.users == old(db.users) && db.workers == old(db.workers) && db.reviews == old(db.reviews)
    {
      var id := GetOrCreateCategory(db, data[i]);
      if CategoriesSeeded(old(db.categories), data, expected) {
        assert expected[i] in db.categories && db.categories[expected[i]].slug == data[i].slug;
        assert id == expected[i];
        assert expected[..i + 1] == expected[..i] + [expected[i]];
      }
      cats := cats + [id];
      i := i + 1;
    }
    assert data[..i] == data;
    if CategoriesSeeded(old(db.categories), data, expected) {
      assert expected[..i] == expected;
    }
  }

  // ---------------------------------------------------------------------
  // create_users_and_workers

  /** The index of the first category of `cats` whose slug is `slug`. */
  function FirstWithSlug(categories: map<Id, CategoryRow>, cats: seq<Id>, slug: string): (r: Option<nat>)
    requires forall c | c in cats :: c in categories
    ensures r.Some? ==> r.value < |cats| && categories[cats[r.value]].slug == slug
    ensures r.Some? ==> forall j | 0 <= j < r.value :: categories[cats[j]].slug != slug
    ensures r.None? ==> forall j | 0 <= j < |cats| :: categories[cats[j]].slug != slug
  {
    if cats == [] then None
    else if categories[cats[0]].slug == slug then Some(0)
    else match FirstWithSlug(categories, cats[1..], slug)
      case None => None
      case Some(j) => Some(j + 1)
  }

  /** `next((c for c in categories if c.slug == slug), categories[0])`: the
      first category with the slug, else the first one; `categories[0]` is
      evaluated first, so an empty list raises. */
  function PickCategory(categories: map<Id, CategoryRow>, cats: seq<Id>, slug: string): (r: Outcome<Id>)
    requires forall c | c in cats :: c in categories
    ensures r.Raised? <==> cats == []
    ensures r.Raised? ==> r.error == INDEX_ERROR
    ensures r.Done? ==> r.value in cats
    ensures r.Done? && (exists j :: 0 <= j < |cats| && categories[cats[j]].slug == slug) ==>
      categories[r.value].slug == slug
    ensures r.Done? && (forall j | 0 <= j < |cats| :: categories[cats[j]].slug != slug) ==> r.value == cats[0]
  {
    if cats == [] then Raised(INDEX_ERROR)
    else match FirstWithSlug(categories, cats, slug)
      case Some(j) => Done(cats[j])
      case None => Done(cats[0])
  }

  /** The user a worker entry creates: role `worker`, no password yet. */
  function WorkerUserRow(s: WorkerSeed): (u: UserRow)
    ensures u.username == s.username && u.role == Worker && u.password == Blank && !u.isStaff
  {
    UserRow(s.username, s.email, s.firstName, s.lastName, s.phone, Worker, Blank, false)
  }

  /** The profile a worker entry creates, placed `OFFSET_SCALE` degrees per unit of offset from the centre. */
  function WorkerProfileRow(s: WorkerSeed, user: Id, category: Id): (w: WorkerRow)
    ensures w.user == user && w.category == Some(category) && w.isVerified == s.isVerified
    ensures w.latitude == JAFFNA_LAT + s.dLat * OFFSET_SCALE && w.longitude == JAFFNA_LNG + s.dLng * OFFSET_SCALE
  {
    WorkerRow(user, Some(category), s.description, s.experienceYears,
              JAFFNA_LAT + s.dLat * OFFSET_SCALE, JAFFNA_LNG + s.dLng * OFFSET_SCALE, s.isVerified)
  }

  /** `pair` is the user of `s` (found by username, with a password) and its one worker profile. */
  predicate EntrySeeded(users: map<Id, UserRow>, workers: map<Id, WorkerRow>, s: WorkerSeed, pair: (Id, Id)) {
    && pair.0 in users
    && users[pair.0].username == s.username
    && users[pair.0].password != Blank
    && WorkersOf(workers, pair.0) == {pair.1}
  }

  predicate WorkersSeeded(users: map<Id, UserRow>, workers: map<Id, WorkerRow>, data: seq<WorkerSeed>, pairs: seq<(Id, Id)>) {
    |pairs| == |data| && forall i | 0 <= i < |pairs| :: EntrySeeded(users, workers, data[i], pairs[i])
  }

  /** User rows of `before` keep their username in `after`, and a row that
      already had a password is unchanged. */
  predicate UsersKept(before: map<Id, UserRow>, after: map<Id, UserRow>) {
    forall k | k in before ::
      k in after && after[k].username == before[k].username
      && (before[k].password != Blank ==> after[k] == before[k])
  }

  /** The profile entry `s` creates for `user`: in the category `PickCategory` chooses. */
  function EntryProfile(categories: map<Id, CategoryRow>, cats: seq<Id>, s: WorkerSeed, user: Id): WorkerRow
    requires cats != [] && forall c | c in cats :: c in categories
  {
    WorkerProfileRow(s, user, PickCategory(categories, cats, s.categorySlug).value)
  }

  /** Every profile in `after` but not in `before` is the one some entry
      `data[i]` creates for its user `pairs[i].0`. */
  ghost predicate ProfilesBuilt(before: map<Id, WorkerRow>, after: map<Id, WorkerRow>, categories: map<Id, CategoryRow>,
                                data: seq<WorkerSeed>, cats: seq<Id>, pairs: seq<(Id, Id)>) {
    && |pairs| <= |data|
    && (forall c | c in cats :: c in categories)
    && forall id | id in after && id !in before ::
         cats != [] && exists i | 0 <= i < |pairs| :: pairs[i].1 == id && after[id] == EntryProfile(categories, cats, data[i], pairs[i].0)
  }

  /** `ProfilesBuilt` with the entry behind each inserted profile recorded in `entry`. */
  ghost predicate ProfilesIndexed(before: map<Id, WorkerRow>, after: map<Id, WorkerRow>, categories: map<Id, CategoryRow>,
                                  data: seq<WorkerSeed>, cats: seq<Id>, pairs: seq<(Id, Id)>, entry: map<Id, nat>) {
    && |pairs| <= |data|
    && (forall c | c in cats :: c in categories)
    && forall id | id in after && id !in before ::
         && cats != [] && id in entry && entry[id] < |pairs| && pairs[entry[id]].1 == id
         && after[id] == EntryProfile(categories, cats, data[entry[id]], pairs[entry[id]].0)
  }

  lemma {:induction false} ProfilesIndexedBuilt(before: map<Id, WorkerRow>, after: map<Id, WorkerRow>, categories: map<Id, CategoryRow>,
                                                data: seq<WorkerSeed>, cats: seq<Id>, pairs: seq<(Id, Id)>, entry: map<Id, nat>)
    requires ProfilesIndexed(before, after, categories, data, cats, pairs, entry)
    ensures ProfilesBuilt(before, after, categories, data, cats, pairs)
  {
    forall id | id in after && id !in before
      ensures exists i | 0 <= i < |pairs| :: pairs[i].1 == id && after[id] == EntryProfile(categories, cats, data[i], pairs[i].0)
    {
      var i := entry[id];
      assert pairs[i].1 == id && after[id] == EntryProfile(categories, cats, data[i], pairs[i].0);
    }
  }

  /** One more entry keeps every inserted profile accounted for, when the step
      kept the old profiles and inserted at most the entry's own. */
  lemma {:induction false} ProfilesIndexedGrow(before: map<Id, WorkerRow>, w1: map<Id, WorkerRow>, w2: map<Id, WorkerRow>,
                                               categories: map<Id, CategoryRow>, data: seq<WorkerSeed>, cats: seq<Id>,
                                               pairs: seq<(Id, Id)>, pair: (Id, Id), entry: map<Id, nat>)
    requires ProfilesIndexed(before, w1, categories, data, cats, pairs, entry) && |pairs| < |data|
    requires cats != []
    requires forall id | id in w1 :: id in w2 && w2[id] == w1[id]
    requires forall id | id in w2 && id !in w1 :: id == pair.1 && w2[id] == EntryProfile(categories, cats, data[|pairs|], pair.0)
    ensures ProfilesIndexed(before, w2, categories, data, cats, pairs + [pair],
                            if pair.1 in w1 then entry else entry[pair.1 := |pairs|])
  {
    var pairs' := pairs + [pair];
    var entry' := if pair.1 in w1 then entry else entry[pair.1 := |pairs|];
    forall id | id in w2 && id !in before
      ensures id in entry' && entry'[id] < |pairs'| && pairs'[entry'[id]].1 == id
      ensures w2[id] == EntryProfile(categories, cats, data[entry'[id]], pairs'[entry'[id]].0)
    {
      if id in w1 {
        assert pairs'[entry[id]] == pairs[entry[id]];
      } else {
        assert pairs'[|pairs|] == pair;
      }
    }
  }

  lemma {:induction false} WorkersSeededKept(u1: map<Id, UserRow>, u2: map<Id, UserRow>, workers: map<Id, WorkerRow>,
                                             data: seq<WorkerSeed>, pairs: seq<(Id, Id)>)
    requires WorkersSeeded(u1, workers, data, pairs) && UsersKept(u1, u2)
    ensures WorkersSeeded(u2, workers, data, pairs)
  {
    forall i | 0 <= i < |pairs|
      ensures pairs[i].0 in u2 && u2[pairs[i].0] == u1[pairs[i].0]
    {
    }
  }

  /** One more entry stays seeded when the step kept every profile and
      inserted at most the entry's own profile. */
  lemma {:induction false} WorkersSeededGrow(users: map<Id, UserRow>, w1: map<Id, WorkerRow>, w2: map<Id, WorkerRow>,
                                             data: seq<WorkerSeed>, pairs: seq<(Id, Id)>, s: WorkerSeed, pair: (Id, Id))
    requires WorkersSeeded(users, w1, data, pairs) && EntrySeeded(users, w2, s, pair)
    requires forall id | id in w1 :: id in w2 && w2[id] == w1[id]
    requires forall id | id in w2 && id !in w1 :: id == pair.1 && w2[id].user == pair.0
    ensures WorkersSeeded(users, w2, data + [s], pairs + [pair])
  {
    var pairs' := pairs + [pair];
    forall i | 0 <= i < |pairs|
      ensures WorkersOf(w2, pairs'[i].0) == {pairs'[i].1}
    {
      assert pairs'[i] == pairs[i];
      var u := pairs[i].0;
      assert pairs[i].1 in WorkersOf(w1, u);
      assert pairs[i].1 in WorkersOf(w2, u);
      forall id | id in w2 && id !in w1
        ensures w2[id].user != u
      {
      }
      assert WorkersOf(w2, u) == WorkersOf(w1, u);
    }
  }

  /** One iteration of `create_users_and_workers`: the user by username (given
      a password when it has none), the category, then the profile by user. */
  method SeedWorker(db: Database, s: WorkerSeed, cats: seq<Id>, ghost expected: (Id, Id)) returns (o: Outcome<(Id, Id)>)
    requires db.Valid()
    requires forall c | c in cats :: c in db.categories
    modifies db
    ensures db.Valid()
    ensures cats == [] ==> o == Raised(INDEX_ERROR)
    ensures cats != [] && o.Raised? ==> o.error == MULTIPLE_OBJECTS_RETURNED
    ensures o.Done? ==> cats != [] && EntrySeeded(db.users, db.workers, s, o.value)
    ensures o.Done? ==> forall id | id in db.workers && id !in old(db.workers) ::
      id == o.value.1 && db.workers[id] == EntryProfile(old(db.categories), cats, s, o.value.0)
    ensures forall id | id in old(db.workers) :: id in db.workers && db.workers[id] == old(db.workers)[id]
    ensures UsersKept(old(db.users), db.users)
    ensures cats != [] && EntrySeeded(old(db.users), old(db.workers), s, expected) ==>
      o == Done(expected) && db.users == old(db.users) && db.workers == old(db.workers) && db.nextId == old(db.nextId)
    ensures db.categories == old(db.categories) && db.reviews == old(db.reviews)
  {
    var user := EnsureUser(db, WorkerUserRow(s));
    var cat := PickCategory(db.categories, cats, s.categorySlug);
    if cat.Raised? {
      return Raised(cat.error);
    }
    var row := WorkerProfileRow(s, user, cat.value);
    assert row == EntryProfile(old(db.categories), cats, s, user);
    var w := GetOrCreateWorker(db, row);
    if w.Raised? {
      return Raised(w.error);
    }
    o := Done((user, w.value));
  }

  /** One iteration of the loop of `create_users_and_workers`, with its
      bookkeeping: the entries before it stay seeded, and every profile
      inserted since `start` is the one its entry creates. */
  method SeedEntry(db: Database, data: seq<WorkerSeed>, cats: seq<Id>, pairs: seq<(Id, Id)>,
                   ghost start: map<Id, WorkerRow>, ghost entry: map<Id, nat>, ghost expected: (Id, Id))
    returns (o: Outcome<(Id, Id)>, ghost entry': map<Id, nat>)
    requires db.Valid()
    requires forall c | c in cats :: c in db.categories
    requires |pairs| < |data|
    requires WorkersSeeded(db.users, db.workers, data[..|pairs|], pairs)
    requires ProfilesIndexed(start, db.workers, db.categories, data, cats, pairs, entry)
    modifies db
    ensures db.Valid()
    ensures cats == [] ==> o == Raised(INDEX_ERROR)
    ensures cats != [] && o.Raised? ==> o.error == MULTIPLE_OBJECTS_RETURNED
    ensures o.Done? ==> WorkersSeeded(db.users, db.workers, data[..|pairs| + 1], pairs + [o.value])
    ensures o.Done? ==> ProfilesIndexed(start, db.workers, db.categories, data, cats, pairs + [o.value], entry')
    ensures UsersKept(old(db.users), db.users)
    ensures cats != [] && EntrySeeded(old(db.users), old(db.workers), data[|pairs|], expected) ==>
      o == Done(expected) && db.users == old(db.users) && db.workers == old(db.workers) && db.nextId == old(db.nextId)
    ensures db.categories == old(db.categories) && db.reviews == old(db.reviews)
  {
    var i := |pairs|;
    ghost var usersBefore, workersBefore := db.users, db.workers;
    o := SeedWorker(db, data[i], cats, expected);
    entry' := entry;
    if o.Done? {
      WorkersSeededKept(usersBefore, db.users, workersBefore, data[..i], pairs);
      WorkersSeededGrow(db.users, workersBefore, db.workers, data[..i], pairs, data[i], o.value);
      ProfilesIndexedGrow(start, workersBefore, db.workers, db.categories, data, cats, pairs, o.value, entry);
      if o.value.1 !in workersBefore {
        entry' := entry[o.value.1 := i];
      }
      assert data[..i + 1] == data[..i] + [data[i]];
    }
  }

  /** `create_users_and_workers` over the entries of `data`. */
  method CreateUsersAndWorkers(db: Database, data: seq<WorkerSeed>, cats: seq<Id>, ghost expected: seq<(Id, Id)>)
    returns (o: Outcome<seq<(Id, Id)>>)
    requires db.Valid()
    requires forall c | c in cats :: c in db.categories
    modifies db
    ensures db.Valid()
    ensures cats == [] && data != [] ==> o == Raised(INDEX_ERROR)
    ensures cats != [] && o.Raised? ==> o.error == MULTIPLE_OBJECTS_RETURNED
    ensures o.Done? ==> WorkersSeeded(db.users, db.workers, data, o.value)
    ensures o.Done? ==> ProfilesBuilt(old(db.workers), db.workers, db.categories, data, cats, o.value)
    ensures UsersKept(old(db.users), db.users)
    ensures cats != [] && WorkersSeeded(old(db.users), old(db.workers), data, expected) ==>
      o == Done(expected) && db.users == old(db.users) && db.workers == old(db.workers) && db.nextId == old(db.nextId)
    ensures db.categories == old(db.categories) && db.reviews == old(db.reviews)
  {
    ghost var seeded := cats != [] && WorkersSeeded(old(db.users), old(db.workers), data, expected);
    ghost var entry: map<Id, nat> := map[];
    var pairs: seq<(Id, Id)> := [];
    var i := 0;
    while i < |data|
      invariant 0 <= i <= |data| && |pairs| == i
      invariant cats == [] ==> i == 0
      invariant db.Valid()
      invariant WorkersSeeded(db.users, db.workers, data[..i], pairs)
      invariant ProfilesIndexed(old(db.workers), db.workers, db.categories, data, cats, pairs, entry)
      invariant UsersKept(old(db.users), db.users)
      invariant seeded ==> pairs == expected[..i] && db.users == old(db.users) && db.workers == old(db.workers) && db.nextId == old(db.nextId)
      invariant db.categories == old(db.categories) && db.reviews == old(db.reviews)
    {
      ghost var exp := if seeded then expected[i] else (0, 0);
      var step;
      step, entry := SeedEntry(db, data, cats, pairs, old(db.workers), entry, exp);
      if step.Raised? {
        return Raised(step.error);
      }
      if seeded {
        assert expected[..i + 1] == expected[..i] + [expected[i]];
      }
      pairs := pairs + [step.value];
      i := i + 1;
    }
    assert data[..i] == data;
    if seeded {
      assert expected[..i] == expected;
    }
    ProfilesIndexedBuilt(old(db.workers), db.workers, db.categories, data, cats, pairs, entry);
    o := Done(pairs);
  }

  // ---------------------------------------------------------------------
  // create_reviews

  /** The user `ensure_customer` creates: role `customer`, no phone, no password yet. */
  function CustomerUserRow(c: CustomerSeed): (u: UserRow)
    ensures u.username == c.username && u.role == Customer && u.password == Blank && !u.isStaff
  {
    UserRow(c.username, c.email, c.firstName, c.lastName, "", Customer, Blank, false)
  }

  /** `ids[i]` is the user named by `data[i]`, with a password. */
  predicate CustomersSeeded(users: map<Id, UserRow>, data: seq<CustomerSeed>, ids: seq<Id>) {
    |ids| == |data| &&
    forall i | 0 <= i < |ids| ::
      ids[i] in users && users[ids[i]].username == data[i].username && users[ids[i]].password != Blank
  }

  /** The `ensure_customer` calls, one per entry of `data`. */
  method EnsureCustomers(db: Database, data: seq<CustomerSeed>, ghost expected: seq<Id>) returns (ids: seq<Id>)
    requires db.Valid()
    modifies db
    ensures db.Valid()
    ensures CustomersSeeded(db.users, data, ids)
    ensures UsersKept(old(db.users), db.users)
    ensures CustomersSeeded(old(db.users), data, expected) ==>
      ids == expected && db.users == old(db.users) && db.nextId == old(db.nextId)
    ensures db.categories == old(db.categories) && db.workers == old(db.workers) && db.reviews == old(db.reviews)
  {
    ghost var seeded := CustomersSeeded(old(db.users), data, expected);
    ids := [];
    var i := 0;
    while i < |data|
      invariant 0 <= i <= |data| && |ids| == i
      invariant db.Valid()
      invariant CustomersSeeded(db.users, data[..i], ids)
      invariant UsersKept(old(db.users), db.users)
      invariant seeded ==> ids == expected[..i] && db.users == old(db.users) && db.nextId == old(db.nextId)
      invariant db.categories == old(db.categories) && db.workers == old(db.workers) && db.reviews == old(db.reviews)
    {
      ghost var before := db.users;
      var id := EnsureUser(db, CustomerUserRow(data[i]));
      forall j | 0 <= j < i
        ensures ids[j] in db.users && db.users[ids[j]] == before[ids[j]]
      {
      }
      if seeded {
        assert expected[i] in before && before[expected[i]].username == data[i].username;
        assert expected[..i + 1] == expected[..i] + [expected[i]];
      }
      assert data[..i + 1] == data[..i] + [data[i]];
      ids := ids + [id];
      i := i + 1;
    }
    assert data[..i] == data;
    if seeded {
      assert expected[..i] == expected;
    }
  }

  /** `random.randint(1, 4)`: the bounds on the number of reviews drawn per worker. */
  const REVIEWS_MIN := 1
  const REVIEWS_MAX := 4

  /** What the generator guarantees of the draws: `random.randint(1, 4)`
      reviews per worker, at most one per customer (`random.sample` draws
      distinct customers, `min(n_reviews, len(customers))` of them), each
      naming a customer and a template that exist. */
  predicate DrawsFit(draws: seq<seq<ReviewDraw>>, customerCount: nat, templateCount: nat) {
    && (forall i | 0 <= i < |draws| :: REVIEWS_MIN <= |draws[i]| <= REVIEWS_MAX && |draws[i]| <= customerCount)
    && (forall i, k | 0 <= i < |draws| && 0 <= k < |draws[i]| ::
          draws[i][k].customer < customerCount && draws[i][k].choice < templateCount)
    && (forall i, k, l | 0 <= i < |draws| && 0 <= k < l < |draws[i]| ::
          draws[i][k].customer != draws[i][l].customer)
  }

  /** The review a draw creates for worker `w` when the pair has none; its
      rating is a valid choice whenever every template's is. */
  function DrawnReview(w: Id, customers: seq<Id>, templates: seq<ReviewTemplate>, d: ReviewDraw): (r: ReviewRow)
    requires d.customer < |customers| && d.choice < |templates|
    ensures r.worker == w && r.author == customers[d.customer]
    ensures r.rating == templates[d.choice].rating && r.comment == templates[d.choice].comment
    ensures (forall t | t in templates :: Reviews.RATING_MIN <= t.rating <= Reviews.RATING_MAX) ==>
      Reviews.RATING_MIN <= r.rating <= Reviews.RATING_MAX
  {
    var t := templates[d.choice];
    assert t in templates;
    ReviewRow(w, customers[d.customer], t.rating, t.comment)
  }

  /** The authors of the reviews of worker `w`. */
  function ReviewersOf(reviews: map<Id, ReviewRow>, w: Id): set<Id> {
    set r | r in reviews && reviews[r].worker == w :: reviews[r].author
  }

  /** `xs` holds no key twice. */
  predicate Distinct(xs: seq<Id>) {
    forall k, l | 0 <= k < l < |xs| :: xs[k] != xs[l]
  }

  /** A set holding `|xs|` distinct keys has at least that many elements. */
  lemma {:induction false} DistinctInSet(xs: seq<Id>, s: set<Id>)
    requires Distinct(xs) && forall k | 0 <= k < |xs| :: xs[k] in s
    ensures |s| >= |xs|
  {
    if xs != [] {
      forall k | 0 <= k < |xs| - 1
        ensures xs[1..][k] in s - {xs[0]}
      {
        assert xs[k + 1] != xs[0];
      }
      DistinctInSet(xs[1..], s - {xs[0]});
    }
  }

  /** When every drawn customer has a review of `w`, distinct draws of
      distinct customers give `w` as many distinct reviewers. */
  lemma {:induction false} DrawnCustomersReviewed(reviews: map<Id, ReviewRow>, w: Id, customers: seq<Id>, ds: seq<ReviewDraw>)
    requires Distinct(customers)
    requires forall k | 0 <= k < |ds| :: ds[k].customer < |customers|
    requires forall k, l | 0 <= k < l < |ds| :: ds[k].customer != ds[l].customer
    requires WorkerReviewed(reviews, w, customers, ds)
    ensures |ReviewersOf(reviews, w)| >= |ds|
  {
    var authors := seq(|ds|, k requires 0 <= k < |ds| => customers[ds[k].customer]);
    forall k | 0 <= k < |ds|
      ensures authors[k] in ReviewersOf(reviews, w)
    {
      var between := ReviewsBetween(reviews, w, authors[k]);
      assert |between| == 1;
      var r :| r in between;
    }
    forall k, l | 0 <= k < l < |ds|
      ensures authors[k] != authors[l]
    {
      var a, b := ds[k].customer, ds[l].customer;
      if a < b {
        assert customers[a] != customers[b];
      } else {
        assert customers[b] != customers[a];
      }
    }
    DistinctInSet(authors, ReviewersOf(reviews, w));
  }

  /** Each customer drawn for worker `w` has exactly one review of `w`. */
  predicate WorkerReviewed(reviews: map<Id, ReviewRow>, w: Id, customers: seq<Id>, ds: seq<ReviewDraw>) {
    forall k | 0 <= k < |ds| && ds[k].customer < |customers| ::
      |ReviewsBetween(reviews, w, customers[ds[k].customer])| == 1
  }

  predicate ReviewsSeeded(reviews: map<Id, ReviewRow>, workerIds: seq<Id>, customers: seq<Id>, draws: seq<seq<ReviewDraw>>) {
    |draws| == |workerIds| && forall i | 0 <= i < |draws| :: WorkerReviewed(reviews, workerIds[i], customers, draws[i])
  }

  /** A pair of worker and author with exactly one review keeps exactly one. */
  ghost predicate ReadyKept(r1: map<Id, ReviewRow>, r2: map<Id, ReviewRow>) {
    forall w, a | |ReviewsBetween(r1, w, a)| == 1 :: |ReviewsBetween(r2, w, a)| == 1
  }

  lemma {:induction false} FirstReviewKeepsReady(r1: map<Id, ReviewRow>, id: Id, row: ReviewRow)
    requires id !in r1 && |ReviewsBetween(r1, row.worker, row.author)| == 0
    ensures ReadyKept(r1, r1[id := row])
  {
    forall w, a | |ReviewsBetween(r1, w, a)| == 1
      ensures |ReviewsBetween(r1[id := row], w, a)| == 1
    {
      ReviewsBetweenAdd(r1, id, row, w, a);
    }
  }

  /** Every review in `after` but not in `before` is the one some draw
      creates: `DrawnReview` for worker `ws[i]` and its draw `draws[i][k]`. */
  ghost predicate ReviewsDrawn(before: map<Id, ReviewRow>, after: map<Id, ReviewRow>, ws: seq<Id>, customers: seq<Id>,
                               templates: seq<ReviewTemplate>, draws: seq<seq<ReviewDraw>>) {
    forall id | id in after && id !in before ::
      exists i, k | 0 <= i < |draws| && i < |ws| && 0 <= k < |draws[i]|
                    && draws[i][k].customer < |customers| && draws[i][k].choice < |templates| ::
        after[id] == DrawnReview(ws[i], customers, templates, draws[i][k])
  }

  /** `ReviewsDrawn` with the worker and draw behind each inserted review recorded in `origin`. */
  ghost predicate ReviewsIndexed(before: map<Id, ReviewRow>, after: map<Id, ReviewRow>, ws: seq<Id>, customers: seq<Id>,
                                 templates: seq<ReviewTemplate>, draws: seq<seq<ReviewDraw>>, origin: map<Id, (nat, nat)>) {
    forall id | id in after && id !in before ::
      && id in origin
      && origin[id].0 < |draws| && origin[id].0 < |ws| && origin[id].1 < |draws[origin[id].0]|
      && draws[origin[id].0][origin[id].1].customer < |customers| && draws[origin[id].0][origin[id].1].choice < |templates|
      && after[id] == DrawnReview(ws[origin[id].0], customers, templates, draws[origin[id].0][origin[id].1])
  }

  lemma {:induction false} ReviewsIndexedDrawn(before: map<Id, ReviewRow>, after: map<Id, ReviewRow>, ws: seq<Id>, customers: seq<Id>,
                                               templates: seq<ReviewTemplate>, draws: seq<seq<ReviewDraw>>, origin: map<Id, (nat, nat)>)
    requires ReviewsIndexed(before, after, ws, customers, templates, draws, origin)
    ensures ReviewsDrawn(before, after, ws, customers, templates, draws)
  {
    forall id | id in after && id !in before
      ensures exists i, k | 0 <= i < |draws| && i < |ws| && 0 <= k < |draws[i]|
                            && draws[i][k].customer < |customers| && draws[i][k].choice < |templates| ::
                after[id] == DrawnReview(ws[i], customers, templates, draws[i][k])
    {
      var (i, k) := origin[id];
      assert after[id] == DrawnReview(ws[i], customers, templates, draws[i][k]);
    }
  }

  /** The reviews inserted for worker `ws[i]` join those inserted before, each
      recorded under its worker and draw. */
  lemma {:induction false} ReviewsIndexedGrow(before: map<Id, ReviewRow>, r1: map<Id, ReviewRow>, r2: map<Id, ReviewRow>,
                                              ws: seq<Id>, customers: seq<Id>, templates: seq<ReviewTemplate>,
                                              draws: seq<seq<ReviewDraw>>, origin: map<Id, (nat, nat)>, i: nat, drawOf: map<Id, nat>)
    returns (origin': map<Id, (nat, nat)>)
    requires ReviewsIndexed(before, r1, ws, customers, templates, draws, origin)
    requires i < |draws| && i < |ws|
    requires forall k | 0 <= k < |draws[i]| :: draws[i][k].customer < |customers| && draws[i][k].choice < |templates|
    requires forall id | id in r1 :: id in r2 && r2[id] == r1[id]
    requires forall id | id in r2 && id !in r1 ::
      id in drawOf && drawOf[id] < |draws[i]| && r2[id] == DrawnReview(ws[i], customers, templates, draws[i][drawOf[id]])
    ensures ReviewsIndexed(before, r2, ws, customers, templates, draws, origin')
  {
    origin' := map id | id in r2 && id !in before :: if id in r1 then origin[id] else (i, drawOf[id]);
  }

  /** The reviews of one worker: one `get_or_create` per drawn customer. */
  method ReviewWorker(db: Database, w: Id, customers: seq<Id>, templates: seq<ReviewTemplate>, ds: seq<ReviewDraw>)
    returns (o: Outcome<()>, ghost drawOf: map<Id, nat>)
    requires db.Valid()
    requires forall k | 0 <= k < |ds| :: ds[k].customer < |customers| && ds[k].choice < |templates|
    modifies db
    ensures db.Valid()
    ensures o.Done? ==> WorkerReviewed(db.reviews, w, customers, ds)
    ensures o.Raised? ==> o.error == MULTIPLE_OBJECTS_RETURNED
    ensures ReadyKept(old(db.reviews), db.reviews)
    ensures forall id | id in old(db.reviews) :: id in db.reviews && db.reviews[id] == old(db.reviews)[id]
    ensures forall id | id in db.reviews && id !in old(db.reviews) ::
      id in drawOf && drawOf[id] < |ds| && db.reviews[id] == DrawnReview(w, customers, templates, ds[drawOf[id]])
    ensures WorkerReviewed(old(db.reviews), w, customers, ds) ==>
      o.Done? && db.reviews == old(db.reviews) && db.nextId == old(db.nextId)
    ensures db.users == old(db.users) && db.categories == old(db.categories) && db.workers == old(db.workers)
  {
    ghost var seeded := WorkerReviewed(old(db.reviews), w, customers, ds);
    drawOf := map[];
    var k := 0;
    while k < |ds|
      invariant 0 <= k <= |ds|
      invariant db.Valid()
      invariant WorkerReviewed(db.reviews, w, customers, ds[..k])
      invariant ReadyKept(old(db.reviews), db.reviews)
      invariant forall id | id in old(db.reviews) :: id in db.reviews && db.reviews[id] == old(db.reviews)[id]
      invariant forall id | id in db.reviews && id !in old(db.reviews) ::
        id in drawOf && drawOf[id] < |ds| && db.reviews[id] == DrawnReview(w, customers, templates, ds[drawOf[id]])
      invariant seeded ==> db.reviews == old(db.reviews) && db.nextId == old(db.nextId)
      invariant db.users == old(db.users) && db.categories == old(db.categories) && db.workers == old(db.workers)
    {
      ghost var before := db.reviews;
      var row := DrawnReview(w, customers, templates, ds[k]);
      var r := GetOrCreateReview(db, row);
      if r.Raised? {
        return Raised(r.error), drawOf;
      }
      if r.value !in before {
        FirstReviewKeepsReady(before, r.value, row);
        drawOf := drawOf[r.value := k];
      }
      assert ds[..k + 1] == ds[..k] + [ds[k]];
      k := k + 1;
    }
    assert ds[..k] == ds;
    o := Done(());
  }

  /** One step of `create_reviews`' worker loop: the reviews of worker
      `workerIds[i]`, with the workers before it still reviewed and each
      review inserted since `start` still traced to its draw. */
  method ReviewEntry(db: Database, workerIds: seq<Id>, customers: seq<Id>, templates: seq<ReviewTemplate>,
                     draws: seq<seq<ReviewDraw>>, i: nat, ghost start: map<Id, ReviewRow>, ghost origin: map<Id, (nat, nat)>)
    returns (o: Outcome<()>, ghost origin': map<Id, (nat, nat)>)
    requires db.Valid()
    requires i < |draws| == |workerIds| && DrawsFit(draws, |customers|, |templates|)
    requires forall j | 0 <= j < i :: WorkerReviewed(db.reviews, workerIds[j], customers, draws[j])
    requires ReviewsIndexed(start, db.reviews, workerIds, customers, templates, draws, origin)
    modifies db
    ensures db.Valid()
    ensures o.Done? ==> forall j | 0 <= j <= i :: WorkerReviewed(db.reviews, workerIds[j], customers, draws[j])
    ensures o.Raised? ==> o.error == MULTIPLE_OBJECTS_RETURNED
    ensures ReviewsIndexed(start, db.reviews, workerIds, customers, templates, draws, origin')
    ensures WorkerReviewed(old(db.reviews), workerIds[i], customers, draws[i]) ==>
      o.Done? && db.reviews == old(db.reviews) && db.nextId == old(db.nextId)
    ensures db.users == old(db.users) && db.categories == old(db.categories) && db.workers == old(db.workers)
  {
    ghost var before := db.reviews;
    ghost var drawOf;
    o, drawOf := ReviewWorker(db, workerIds[i], customers, templates, draws[i]);
    origin' := ReviewsIndexedGrow(start, before, db.reviews, workerIds, customers, templates, draws, origin, i, drawOf);
    if o.Done? {
      forall j, k | 0 <= j < i && 0 <= k < |draws[j]| && draws[j][k].customer < |customers|
        ensures |ReviewsBetween(db.reviews, workerIds[j], customers[draws[j][k].customer])| == 1
      {
        assert |ReviewsBetween(before, workerIds[j], customers[draws[j][k].customer])| == 1;
      }
    }
  }

  /** `create_reviews`: the customers, then for worker `workerIds[i]` the
      reviews by the customers of `draws[i]`, each with the drawn template. */
  method CreateReviews(db: Database, workerIds: seq<Id>, customerData: seq<CustomerSeed>,
                       templates: seq<ReviewTemplate>, draws: seq<seq<ReviewDraw>>, ghost expected: seq<Id>)
    returns (o: Outcome<seq<Id>>)
    requires db.Valid()
    requires |draws| == |workerIds| && DrawsFit(draws, |customerData|, |templates|)
    modifies db
    ensures db.Valid()
    ensures o.Done? ==> CustomersSeeded(db.users, customerData, o.value) && ReviewsSeeded(db.reviews, workerIds, o.value, draws)
    ensures o.Done? ==> ReviewsDrawn(old(db.reviews), db.reviews, workerIds, o.value, templates, draws)
    ensures o.Raised? ==> o.error == MULTIPLE_OBJECTS_RETURNED
    ensures UsersKept(old(db.users), db.users)
    ensures CustomersSeeded(old(db.users), customerData, expected) && ReviewsSeeded(old(db.reviews), workerIds, expected, draws) ==>
      o == Done(expected) && db.users == old(db.users) && db.reviews == old(db.reviews) && db.nextId == old(db.nextId)
    ensures db.categories == old(db.categories) && db.workers == old(db.workers)
  {
    ghost var seeded := CustomersSeeded(old(db.users), customerData, expected)
                        && ReviewsSeeded(old(db.reviews), workerIds, expected, draws);
    var customers := EnsureCustomers(db, customerData, expected);
    ghost var usersAfter := db.users;
    ghost var origin: map<Id, (nat, nat)> := map[];
    var i := 0;
    while i < |workerIds|
      invariant 0 <= i <= |workerIds|
      invariant db.Valid()
      invariant db.users == usersAfter && CustomersSeeded(db.users, customerData, customers)
      invariant UsersKept(old(db.users), db.users)
      invariant forall j | 0 <= j < i :: WorkerReviewed(db.reviews, workerIds[j], customers, draws[j])
      invariant ReviewsIndexed(old(db.reviews), db.reviews, workerIds, customers, templates, draws, origin)
      invariant seeded ==> customers == expected && db.users == old(db.users) && db.reviews == old(db.reviews) && db.nextId == old(db.nextId)
      invariant db.categories == old(db.categories) && db.workers == old(db.workers)
    {
      var step;
      step, origin := ReviewEntry(db, workerIds, customers, templates, draws, i, old(db.reviews), origin);
      if step.Raised? {
        return Raised(step.error);
      }
      i := i + 1;
    }
    ReviewsIndexedDrawn(old(db.reviews), db.reviews, workerIds, customers, templates, draws, origin);
    o := Done(customers);
  }

  // ---------------------------------------------------------------------
  // The command

  const CATEGORIES_DATA: seq<CategoryRow> := [
    CategoryRow("Driver", "driver", "Professional drivers", "\U{1F697}"),
    CategoryRow("Plumber", "plumber", "Plumbing services", "\U{1F527}"),
    CategoryRow("Electrician", "electrician", "Electrical work", "\U{26A1}"),
    CategoryRow("Agent", "agent", "Real estate and agents", "\U{1F91D}"),
    CategoryRow("Gold Worker", "gold-worker", "Goldsmith and jewelry", "\U{1F48D}"),
    CategoryRow("AC Repair", "ac-repair", "AC repair and maintenance", "\U{2744}\U{FE0F}"),
    CategoryRow("Tuition Teacher", "tuition-teacher", "Tutoring and tuition", "\U{1F4DA}")
  ]

  const USERS_WORKERS: seq<WorkerSeed> := [
    WorkerSeed("rajan_kumar", "Rajan", "Kumar", "rajan@example.com", "+94771234567", "plumber", 8, true, 0.2, 0.1,
      "Expert plumber with 8+ years of experience in residential and commercial plumbing. Specializing in pipe repairs, bathroom installations, water heater services, and drain cleaning. Available for emergency call-outs in Jaffna and surrounding areas."),
    WorkerSeed("vijay_kumar", "Vijay", "Kumar", "vijay@example.com", "+94779012345", "plumber", 3, false, 0.6, 0.4,
      "Affordable plumbing services for homes and small businesses. Pipe fixing, tap repairs, and basic installations. Fair rates and same-day service when possible."),
    WorkerSeed("santhosh_plumber", "Santhosh", "Mohan", "santhosh.p@example.com", "+94780123456", "plumber", 6, true, -0.3, 0.35,
      "Licensed plumber. Bathroom and kitchen fittings, sewage line work, and water pump installation. I use quality materials and give a warranty on labour."),
    WorkerSeed("selvam_arjun", "Selvam", "Arjun", "selvam@example.com", "+94772345678", "electrician", 5, true, -0.1, 0.15,
      "Licensed electrician specializing in home wiring, electrical repairs, and fuse board upgrades. Safe, certified work for residential and small commercial projects in Jaffna."),
    WorkerSeed("balan_kumar", "Balan", "Kumar", "balan@example.com", "+94781112233", "electrician", 11, true, 0.45, -0.25,
      "Over 10 years in electrical work. House wiring, generator connections, solar panel wiring, and fault finding. Available for urgent repairs."),
    WorkerSeed("kumar_electrician", "Kumar", "Somasundaram", "kumar.e@example.com", "+94782223344", "electrician", 4, false, -0.5, 0.1,
      "Domestic electrician for lighting, switches, and appliance wiring. Reasonable rates and quick response in Jaffna town area."),
    WorkerSeed("muthu_krishnan", "Muthu", "Krishnan", "muthu@example.com", "+94773456789", "driver", 12, true, 0.05, -0.1,
      "Professional driver with 12+ years experience. Daily hire, airport transfers (Jaffna\U{2013}Colombo), wedding and event trips, and outstation tours. Clean vehicle and punctual."),
    WorkerSeed("arun_driver", "Arun", "Jeyakumar", "arun.d@example.com", "+94783334455", "driver", 7, true, 0.15, 0.4,
      "Van and car driver for school runs, office drop-offs, and family trips. Knows Jaffna and Northern Province routes well. Safe driver."),
    WorkerSeed("kannan_driver", "Kannan", "Nadesan", "kannan.d@example.com", "+94784445566", "driver", 5, false, -0.2, -0.3,
      "Driver available for hire by the hour or day. Airport pickup/drop, hospital visits, and local errands. Contact for availability."),
    WorkerSeed("priya_nanthini", "Priya", "Nanthini", "priya@example.com", "+94774567890", "tuition-teacher", 7, true, 0.3, 0.2,
      "Experienced teacher for O/L and A/L Mathematics and Science. Home visits or small group classes. Past papers practice and concept clearing. Based in Jaffna."),
    WorkerSeed("nirmala_raj", "Nirmala", "Raj", "nirmala@example.com", "+94778901234", "tuition-teacher", 10, true, -0.2, -0.15,
      "English and Tamil language tutor for O/L, A/L, and adult learners. Grammar, literature, and spoken English. Flexible timings and patient approach."),
    WorkerSeed("siva_teacher", "Siva", "Ramanan", "siva.t@example.com", "+94785556677", "tuition-teacher", 4, true, 0.5, -0.4,
      "Physics and Combined Mathematics tuition for A/L. Clear explanations and problem-solving focus. Group or one-to-one sessions in Jaffna."),
    WorkerSeed("kannan_sivam", "Kannan", "Sivam", "kannan@example.com", "+94775678901", "ac-repair", 4, false, 0.4, -0.2,
      "Certified AC technician for all brands. Installation, repair, gas refill, and regular maintenance. Split and window units. Service in Jaffna and suburbs."),
    WorkerSeed("raj_ac", "Raj", "Ganesan", "raj.ac@example.com", "+94786667788", "ac-repair", 9, true, -0.35, 0.2,
      "AC specialist with 9 years experience. Quick diagnosis, genuine parts when possible, and follow-up support. Commercial and residential."),
    WorkerSeed("thilaga_devi", "Thilaga", "Devi", "thilaga@example.com", "+94776789012", "gold-worker", 15, true, -0.15, 0.25,
      "Skilled goldsmith with 15+ years in traditional and modern jewelry. Custom designs, repairs, resizing, and polishing. Trusted for weddings and special occasions in Jaffna."),
    WorkerSeed("murugan_gold", "Murugan", "Selliah", "murugan.g@example.com", "+94787778899", "gold-worker", 8, true, 0.25, -0.35,
      "Gold and silver jewelry making and repair. Antique restoration and new designs. Shop in Jaffna town; also home visits for consultations."),
    WorkerSeed("suresh_babu", "Suresh", "Babu", "suresh@example.com", "+94777890123", "agent", 6, true, 0.5, 0.3,
      "Real estate and property agent in Jaffna. Land, houses, and commercial property. Documentation support and fair dealing. Contact for buying, selling, or renting."),
    WorkerSeed("kavitha_agent", "Kavitha", "Arunachalam", "kavitha@example.com", "+94788889900", "agent", 4, false, -0.4, 0.45,
      "Property agent for residential listings. Help with viewing, negotiation, and paperwork. Focus on Jaffna and nearby areas.")
  ]

  const CUSTOMERS: seq<CustomerSeed> := [
    CustomerSeed("customer1", "customer@example.com", "Anitha", "Selvam"),
    CustomerSeed("customer2", "kumar@example.com", "Kumar", "Raj"),
    CustomerSeed("customer3", "meera@example.com", "Meera", "Devi"),
    CustomerSeed("customer4", "siva.c@example.com", "Siva", "Chandran"),
    CustomerSeed("customer5", "rani@example.com", "Rani", "Krishnan")
  ]

  const REVIEW_DATA: seq<ReviewTemplate> := [
    ReviewTemplate(5, "Excellent work! Very professional and finished on time. Highly recommended."),
    ReviewTemplate(5, "Best service in Jaffna. Will definitely hire again. Thank you!"),
    ReviewTemplate(4, "Good job. Arrived on time and did what was agreed. Minor delay but overall satisfied."),
    ReviewTemplate(4, "Reliable and fair price. Would use again for future work."),
    ReviewTemplate(5, "Very skilled and polite. Fixed the issue quickly. Five stars."),
    ReviewTemplate(4, "Satisfied with the service. Clean work and reasonable rate."),
    ReviewTemplate(5, "Outstanding! Went the extra mile. My family was very happy."),
    ReviewTemplate(3, "Work was done but took longer than expected. Result is okay."),
    ReviewTemplate(5, "Prompt, professional, and quality work. No complaints at all."),
    ReviewTemplate(4, "Good experience. Would recommend to others in Jaffna.")
  ]

  /** The keys a run hands from phase to phase: the categories, each worker
      entry's user and profile, and the customers. */
  datatype SeedIds = SeedIds(categories: seq<Id>, workers: seq<(Id, Id)>, customers: seq<Id>)

  function ProfileIds(pairs: seq<(Id, Id)>): (ids: seq<Id>)
    ensures |ids| == |pairs| && forall i | 0 <= i < |pairs| :: ids[i] == pairs[i].1
  {
    seq(|pairs|, i requires 0 <= i < |pairs| => pairs[i].1)
  }

  /** Everything a run over the given data inserts is present under the keys `ids`. */
  predicate SeededWith(t: Tables, categoryData: seq<CategoryRow>, workerData: seq<WorkerSeed>,
                       customerData: seq<CustomerSeed>, ids: SeedIds, draws: seq<seq<ReviewDraw>>) {
    && CategoriesSeeded(t.categories, categoryData, ids.categories)
    && WorkersSeeded(t.users, t.workers, workerData, ids.workers)
    && CustomersSeeded(t.users, customerData, ids.customers)
    && ReviewsSeeded(t.reviews, ProfileIds(ids.workers), ids.customers, draws)
  }

  /** The three phases in order over the given data, an exception ending the run. */
  method Run(db: Database, categoryData: seq<CategoryRow>, workerData: seq<WorkerSeed>,
             customerData: seq<CustomerSeed>, templates: seq<ReviewTemplate>,
             draws: seq<seq<ReviewDraw>>, ghost expected: SeedIds) returns (o: Outcome<SeedIds>)
    requires db.Valid()
    requires categoryData != []
    requires |draws| == |workerData| && DrawsFit(draws, |customerData|, |templates|)
    modifies db
    ensures db.Valid()
    ensures o.Done? ==> SeededWith(db.Snapshot(), categoryData, workerData, customerData, o.value, draws)
    ensures o.Done? ==> InsertedAsBuilt(old(db.Snapshot()), db.Snapshot(), workerData, templates, o.value, draws)
    ensures o.Raised? ==> o.error == MULTIPLE_OBJECTS_RETURNED
    ensures SeededWith(old(db.Snapshot()), categoryData, workerData, customerData, expected, draws) ==>
      o == Done(expected) && db.Snapshot() == old(db.Snapshot()) && db.nextId == old(db.nextId)
  {
    var cats := CreateCategories(db, categoryData, expected.categories);
    var workers := CreateUsersAndWorkers(db, workerData, cats, expected.workers);
    if workers.Raised? {
      return Raised(workers.error);
    }
    ghost var usersBefore := db.users;
    var customers := CreateReviews(db, ProfileIds(workers.value), customerData, templates, draws, expected.customers);
    if customers.Raised? {
      return Raised(customers.error);
    }
    WorkersSeededKept(usersBefore, db.users, db.workers, workerData, workers.value);
    o := Done(SeedIds(cats, workers.value, customers.value));
  }

  /** Customers with distinct usernames are distinct keys once seeded. */
  lemma SeededCustomersDistinct(users: map<Id, UserRow>, data: seq<CustomerSeed>, ids: seq<Id>)
    requires CustomersSeeded(users, data, ids)
    requires forall a, b | 0 <= a < b < |data| :: data[a].username != data[b].username
    ensures Distinct(ids)
  {
  }

  /** After a completed run, the profile of worker entry `i` has reviews by
      at least as many distinct customers as were drawn for it, which is
      between one and four. */
  lemma {:induction false} SeededWorkerReviewers(t: Tables, categoryData: seq<CategoryRow>, workerData: seq<WorkerSeed>,
                                                 customerData: seq<CustomerSeed>, templateCount: nat, ids: SeedIds,
                                                 draws: seq<seq<ReviewDraw>>, i: nat)
    requires SeededWith(t, categoryData, workerData, customerData, ids, draws)
    requires DrawsFit(draws, |customerData|, templateCount)
    requires forall a, b | 0 <= a < b < |customerData| :: customerData[a].username != customerData[b].username
    requires i < |draws|
    ensures REVIEWS_MIN <= |draws[i]| <= REVIEWS_MAX
    ensures i < |ids.workers| && |ReviewersOf(t.reviews, ids.workers[i].1)| >= |draws[i]|
  {
    SeededCustomersDistinct(t.users, customerData, ids.customers);
    var profiles := ProfileIds(ids.workers);
    assert WorkerReviewed(t.reviews, profiles[i], ids.customers, draws[i]);
    DrawnCustomersReviewed(t.reviews, profiles[i], ids.customers, draws[i]);
  }

  /** Everything the command inserts is present under the keys `ids`. */
  predicate Seeded(t: Tables, ids: SeedIds, draws: seq<seq<ReviewDraw>>) {
    SeededWith(t, CATEGORIES_DATA, USERS_WORKERS, CUSTOMERS, ids, draws)
  }

  /** Every profile and review a run inserted holds what the command builds:
      the profile of its worker entry with the picked category, and the
      review of one draw. */
  ghost predicate InsertedAsBuilt(before: Tables, after: Tables, workerData: seq<WorkerSeed>, templates: seq<ReviewTemplate>,
                                  ids: SeedIds, draws: seq<seq<ReviewDraw>>) {
    && ProfilesBuilt(before.workers, after.workers, after.categories, workerData, ids.categories, ids.workers)
    && ReviewsDrawn(before.reviews, after.reviews, ProfileIds(ids.workers), ids.customers, templates, draws)
  }

  /** A profile the worker loop inserted is the profile of worker entry `i`
      for user `pairs[i].0`: its category is one of the seeded ones, the one
      with the entry's slug when there is such a category and the first
      seeded one otherwise. */
  lemma {:induction false} InsertedProfileCategory(before: map<Id, WorkerRow>, after: map<Id, WorkerRow>,
                                                   categories: map<Id, CategoryRow>, data: seq<WorkerSeed>,
                                                   cats: seq<Id>, pairs: seq<(Id, Id)>, id: Id) returns (i: nat)
    requires ProfilesBuilt(before, after, categories, data, cats, pairs)
    requires id in after && id !in before
    ensures i < |pairs| && i < |data| && pairs[i] == (after[id].user, id)
    ensures after[id].description == data[i].description && after[id].isVerified == data[i].isVerified
    ensures after[id].category.Some? && after[id].category.value in cats && after[id].category.value in categories
    ensures (exists j :: 0 <= j < |cats| && categories[cats[j]].slug == data[i].categorySlug) ==>
      categories[after[id].category.value].slug == data[i].categorySlug
    ensures (forall j | 0 <= j < |cats| :: categories[cats[j]].slug != data[i].categorySlug) ==>
      after[id].category == Some(cats[0])
  {
    i :| 0 <= i < |pairs| && pairs[i].1 == id && after[id] == EntryProfile(categories, cats, data[i], pairs[i].0);
    var picked := PickCategory(categories, cats, data[i].categorySlug);
    assert after[id] == WorkerProfileRow(data[i], pairs[i].0, picked.value);
  }

  /** Every review a run inserted is about one of the workers `ws` by one of
      the `customers`, and rates within `Review.RATING_CHOICES` when every
      template does. */
  lemma {:induction false} InsertedReviewsRateValid(before: map<Id, ReviewRow>, after: map<Id, ReviewRow>, ws: seq<Id>,
                                                    customers: seq<Id>, templates: seq<ReviewTemplate>,
                                                    draws: seq<seq<ReviewDraw>>)
    requires ReviewsDrawn(before, after, ws, customers, templates, draws)
    requires forall t | t in templates :: Reviews.RATING_MIN <= t.rating <= Reviews.RATING_MAX
    ensures forall id | id in after && id !in before ::
      && after[id].worker in ws && after[id].author in customers
      && Reviews.RATING_MIN <= after[id].rating <= Reviews.RATING_MAX
  {
    forall id | id in after && id !in before
      ensures after[id].worker in ws && after[id].author in customers
      ensures Reviews.RATING_MIN <= after[id].rating <= Reviews.RATING_MAX
    {
      var i, k :| 0 <= i < |draws| && i < |ws| && 0 <= k < |draws[i]|
                  && draws[i][k].customer < |customers| && draws[i][k].choice < |templates|
                  && after[id] == DrawnReview(ws[i], customers, templates, draws[i][k]);
      var r := DrawnReview(ws[i], customers, templates, draws[i][k]);
      assert r.rating == templates[draws[i][k].choice].rating;
    }
  }

  /** `Command.handle`. After a run that completes, everything is seeded; a
      run on a seeded database completes with the same keys and changes nothing. */
  method Handle(db: Database, draws: seq<seq<ReviewDraw>>, ghost expected: SeedIds) returns (o: Outcome<SeedIds>)
    requires db.Valid()
    requires |draws| == |USERS_WORKERS| && DrawsFit(draws, |CUSTOMERS|, |REVIEW_DATA|)
    modifies db
    ensures db.Valid()
    ensures o.Done? ==> Seeded(db.Snapshot(), o.value, draws)
    ensures o.Done? ==> InsertedAsBuilt(old(db.Snapshot()), db.Snapshot(), USERS_WORKERS, REVIEW_DATA, o.value, draws)
    ensures o.Raised? ==> o.error == MULTIPLE_OBJECTS_RETURNED
    ensures Seeded(old(db.Snapshot()), expected, draws) ==>
      o == Done(expected) && db.Snapshot() == old(db.Snapshot()) && db.nextId == old(db.nextId)
  {
    o := Run(db, CATEGORIES_DATA, USERS_WORKERS, CUSTOMERS, REVIEW_DATA, draws, expected);
  }

  /** The command's customers have distinct usernames. */
  lemma CustomerUsernamesDistinct()
    ensures forall a, b | 0 <= a < b < |CUSTOMERS| :: CUSTOMERS[a].username != CUSTOMERS[b].username
  {
  }

  /** Every review template rates within `Review.RATING_CHOICES`. */
  lemma ReviewDataRatingsValid()
    ensures forall t | t in REVIEW_DATA :: Reviews.RATING_MIN <= t.rating <= Reviews.RATING_MAX
  {
    var ratings := seq(|REVIEW_DATA|, k requires 0 <= k < |REVIEW_DATA| => REVIEW_DATA[k].rating);
    assert ratings == [5, 5, 4, 4, 5, 4, 5, 3, 5, 4];
    forall t | t in REVIEW_DATA
      ensures Reviews.RATING_MIN <= t.rating <= Reviews.RATING_MAX
    {
      var k :| 0 <= k < |REVIEW_DATA| && REVIEW_DATA[k] == t;
      assert t.rating == ratings[k];
    }
  }

  /** After the command completes, between one and four distinct customers
      were drawn for each seeded worker, and it has at least that many
      distinct reviewers. */
  lemma SeededWorkersReviewed(t: Tables, ids: SeedIds, draws: seq<seq<ReviewDraw>>, i: nat)
    requires Seeded(t, ids, draws) && DrawsFit(draws, |CUSTOMERS|, |REVIEW_DATA|)
    requires i < |draws|
    ensures REVIEWS_MIN <= |draws[i]| <= REVIEWS_MAX
    ensures i < |ids.workers| && |ReviewersOf(t.reviews, ids.workers[i].1)| >= |draws[i]|
  {
    CustomerUsernamesDistinct();
    SeededWorkerReviewers(t, CATEGORIES_DATA, USERS_WORKERS, CUSTOMERS, |REVIEW_DATA|, ids, draws, i);
  }

  /** After the command completes, every review it inserted rates 1 to 5 and
      is by a seeded customer about a seeded worker profile. */
  lemma SeededReviewsRateValid(before: Tables, after: Tables, ids: SeedIds, draws: seq<seq<ReviewDraw>>)
    requires InsertedAsBuilt(before, after, USERS_WORKERS, REVIEW_DATA, ids, draws)
    ensures forall id | id in after.reviews && id !in before.reviews ::
      && after.reviews[id].worker in ProfileIds(ids.workers) && after.reviews[id].author in ids.customers
      && Reviews.RATING_MIN <= after.reviews[id].rating <= Reviews.RATING_MAX
  {
    ReviewDataRatingsValid();
    InsertedReviewsRateValid(before.reviews, after.reviews, ProfileIds(ids.workers), ids.customers, REVIEW_DATA, draws);
  }

  /** Running the command twice with the same draws: the second run returns
      what the first returned and leaves the database as the first left it. */
  method HandleTwice(db: Database, draws: seq<seq<ReviewDraw>>)
    returns (first: Outcome<SeedIds>, second: Outcome<SeedIds>, ghost between: Tables)
    requires db.Valid()
    requires |draws| == |USERS_WORKERS| && DrawsFit(draws, |CUSTOMERS|, |REVIEW_DATA|)
    modifies db
    ensures db.Valid()
    ensures first.Done? ==> second == first && db.Snapshot() == between
    ensures first.Done? ==> Seeded(db.Snapshot(), first.value, draws)
  {
    first := Handle(db, draws, SeedIds([], [], []));
    between := db.Snapshot();
    var expected := if first.Done? then first.value else SeedIds([], [], []);
    second := Handle(db, draws, expected);
  }
}
