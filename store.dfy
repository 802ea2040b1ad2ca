/** The database tables the controllers and the seeding command work on
    (core/models): users, categories, worker profiles and reviews, each a map
    from primary key to row, and the queries shared by the controllers. */
module Store {
  import opened Wrappers
  import Text

  type Id = nat

  /** `User.ROLE_CHOICES` */
  datatype Role = Customer | Worker | Admin

  /** The stored password: blank (as `get_or_create` leaves it) or the hash of a
      secret set through `set_password`; hashing itself is not modelled. */
  datatype Password = Blank | Hashed(secret: string)

  datatype UserRow = UserRow(
    username: string,
    email: string,
    firstName: string,
    lastName: string,
    phone: string,
    role: Role,
    password: Password,
    isStaff: bool)

  datatype CategoryRow = CategoryRow(name: string, slug: string, description: string, icon: string)

  /** A worker profile; the coordinates are plain reals (floating point is not modelled). */
  datatype WorkerRow = WorkerRow(
    user: Id,
    category: Option<Id>,
    description: string,
    experienceYears: int,
    latitude: real,
    longitude: real,
    isVerified: bool)

  datatype ReviewRow = ReviewRow(worker: Id, author: Id, rating: int, comment: string)

  /** DRF's `request.user`: the anonymous user or a registered one. */
  datatype Principal = Anonymous | Registered(id: Id, role: Role, isStaff: bool)

  predicate IsAuthenticated(user: Principal) {
    user.Registered?
  }

  /** The principal a stored user becomes once a request is authenticated as it. */
  function PrincipalOf(id: Id, u: UserRow): (p: Principal)
    ensures IsAuthenticated(p) && p.id == id && p.role == u.role && p.isStaff == u.isStaff
  {
    Registered(id, u.role, u.isStaff)
  }

  /** `get_full_name() or username`: the name the serializers show for a user;
      `get_full_name` strips every Python whitespace character. */
  function DisplayName(u: UserRow): string {
    var full := Text.Strip(u.firstName + " " + u.lastName, Text.WHITESPACE);
    if full != [] then full else u.username
  }

  /** `Model.objects.get(pk=pk)` with `DoesNotExist` answered by NOT_FOUND and `message`. */
  function Lookup<T>(table: map<Id, T>, pk: Id, message: string): (r: Result<T>)
    ensures r.Ok? <==> pk in table
    ensures r.Ok? ==> r.value == table[pk]
    ensures r.Fail? ==> r.status == NOT_FOUND && r.message == message
  {
    if pk in table then Ok(table[pk]) else Fail(NOT_FOUND, message)
  }

  /** `a` is `b` with some elements left out, the rest kept in order. */
  predicate IsSubsequence<T(==)>(a: seq<T>, b: seq<T>) {
    if a == [] then true
    else if b == [] then false
    else if a[0] == b[0] then IsSubsequence(a[1..], b[1..])
    else IsSubsequence(a, b[1..])
  }

  /** The keys of `table` met in scan order `order` whose row satisfies `keep`:
      a queryset filter. The result keeps the scan order. */
  function Select<T>(order: seq<Id>, table: map<Id, T>, keep: T -> bool): (ids: seq<Id>)
    ensures IsSubsequence(ids, order)
    ensures forall id :: id in ids <==> id in order && id in table && keep(table[id])
  {
    if order == [] then []
    else
      var rest := Select(order[1..], table, keep);
      if order[0] in table && keep(table[order[0]]) then [order[0]] + rest else rest
  }

  /** The worker profiles owned by user `u`. */
  function WorkersOf(workers: map<Id, WorkerRow>, u: Id): set<Id> {
    set w | w in workers && workers[w].user == u
  }

  /** The reviews written by `author` about worker `w`. */
  function ReviewsBetween(reviews: map<Id, ReviewRow>, w: Id, author: Id): set<Id> {
    set r | r in reviews && reviews[r].worker == w && reviews[r].author == author
  }

  /** A row added under a fresh key changes the profiles of its own user only. */
  lemma WorkersOfAdd(workers: map<Id, WorkerRow>, id: Id, row: WorkerRow, u: Id)
    requires id !in workers
    ensures WorkersOf(workers[id := row], u)
      == if row.user == u then WorkersOf(workers, u) + {id} else WorkersOf(workers, u)
  {
  }

  /** A review added under a fresh key changes the reviews of its own pair only. */
  lemma ReviewsBetweenAdd(reviews: map<Id, ReviewRow>, id: Id, row: ReviewRow, w: Id, a: Id)
    requires id !in reviews
    ensures ReviewsBetween(reviews[id := row], w, a)
      == if row.worker == w && row.author == a then ReviewsBetween(reviews, w, a) + {id}
         else ReviewsBetween(reviews, w, a)
  {
  }

  /** Foreign keys of worker rows point at stored rows (`category` is nulled when its row goes). */
  predicate WorkersLinked(users: map<Id, UserRow>, categories: map<Id, CategoryRow>, workers: map<Id, WorkerRow>) {
    forall w | w in workers ::
      workers[w].user in users && (workers[w].category.Some? ==> workers[w].category.value in categories)
  }

  predicate UniqueUsernames(users: map<Id, UserRow>) {
    forall a, b | a in users && b in users && users[a].username == users[b].username :: a == b
  }

  predicate UniqueSlugs(categories: map<Id, CategoryRow>) {
    forall a, b | a in categories && b in categories && categories[a].slug == categories[b].slug :: a == b
  }

  /** A copy of every table, to compare the database before and after an operation. */
  datatype Tables = Tables(
    users: map<Id, UserRow>,
    categories: map<Id, CategoryRow>,
    workers: map<Id, WorkerRow>,
    reviews: map<Id, ReviewRow>)

  /** The database. Primary keys come from one counter that only grows. */
  class Database {
    var users: map<Id, UserRow>
    var categories: map<Id, CategoryRow>
    var workers: map<Id, WorkerRow>
    var reviews: map<Id, ReviewRow>
    var nextId: Id

    /** Keys are below the counter, `username` and `slug` are unique
        (User.username, Category.py:8) and worker foreign keys resolve. */
    ghost predicate Valid()
      reads this
    {
      && (forall k | k in users :: k < nextId)
      && (forall k | k in categories :: k < nextId)
      && (forall k | k in workers :: k < nextId)
      && (forall k | k in reviews :: k < nextId)
      && UniqueUsernames(users)
      && UniqueSlugs(categories)
      && WorkersLinked(users, categories, workers)
    }

    function Snapshot(): (t: Tables)
      reads this
      ensures t.users == users && t.categories == categories && t.workers == workers && t.reviews == reviews
    {
      Tables(users, categories, workers, reviews)
    }

    constructor ()
      ensures Valid()
      ensures users == map[] && categories == map[] && workers == map[] && reviews == map[]
    {
      users, categories, workers, reviews := map[], map[], map[], map[];
      nextId := 1;
    }

    /** INSERT into the user table; the caller keeps usernames unique. */
    method AddUser(row: UserRow) returns (id: Id)
      requires Valid()
      requires forall k | k in users :: users[k].username != row.username
      modifies this
      ensures Valid()
      ensures id !in old(users) && id == old(nextId) && nextId == id + 1
      ensures users == old(users)[id := row]
      ensures categories == old(categories) && workers == old(workers) && reviews == old(reviews)
    {
      id := nextId;
      users := users[id := row];
      nextId := nextId + 1;
    }

    /** INSERT into the category table; the caller keeps slugs unique. */
    method AddCategory(row: CategoryRow) returns (id: Id)
      requires Valid()
      requires forall k | k in categories :: categories[k].slug != row.slug
      modifies this
      ensures Valid()
      ensures id !in old(categories) && id == old(nextId) && nextId == id + 1
      ensures categories == old(categories)[id := row]
      ensures users == old(users) && workers == old(workers) && reviews == old(reviews)
    {
      id := nextId;
      categories := categories[id := row];
      nextId := nextId + 1;
    }

    /** INSERT into the worker table. */
    method AddWorker(row: WorkerRow) returns (id: Id)
      requires Valid()
      requires row.user in users && (row.category.Some? ==> row.category.value in categories)
      modifies this
      ensures Valid()
      ensures id !in old(workers) && id == old(nextId) && nextId == id + 1
      ensures workers == old(workers)[id := row]
      ensures users == old(users) && categories == old(categories) && reviews == old(reviews)
    {
      id := nextId;
      workers := workers[id := row];
      nextId := nextId + 1;
    }

    /** INSERT into the review table. */
    method AddReview(row: ReviewRow) returns (id: Id)
      requires Valid()
      modifies this
      ensures Valid()
      ensures id !in old(reviews) && id == old(nextId) && nextId == id + 1
      ensures reviews == old(reviews)[id := row]
      ensures users == old(users) && categories == old(categories) && workers == old(workers)
    {
      id := nextId;
      reviews := reviews[id := row];
      nextId := nextId + 1;
    }
  }
}
