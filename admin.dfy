/** The admin views of core/controllers/AdminController.py: the permission
    class, the list of workers awaiting verification and the approve and
    reject actions. */
module Admin {
  import opened Wrappers
  import opened Store

  /** `IsAdminUser.has_permission`: an authenticated user who is staff or has the admin role. */
  predicate IsAdminUser(user: Principal) {
    IsAuthenticated(user) && (user.isStaff || user.role == Admin)
  }

  /** DRF's default messages for `NotAuthenticated` and `PermissionDenied`. */
  const NOT_AUTHENTICATED := "Authentication credentials were not provided."
  const PERMISSION_DENIED := "You do not have permission to perform this action."

  /** `APIView.check_permissions` with `permission_classes = [IsAdminUser]`,
      run before every admin handler: a refused anonymous user gets
      `NotAuthenticated` (401 under token authentication), a refused
      registered user `PermissionDenied` (403). */
  function AdminCheck(user: Principal): (r: Result<()>)
    ensures r.Ok? <==> user.Registered? && (user.isStaff || user.role == Admin)
    ensures r.Fail? && !user.Registered? ==> r == Fail(UNAUTHORIZED, NOT_AUTHENTICATED)
    ensures r.Fail? && user.Registered? ==> r == Fail(FORBIDDEN, PERMISSION_DENIED)
  {
    if IsAdminUser(user) then Ok(())
    else if !IsAuthenticated(user) then Fail(UNAUTHORIZED, NOT_AUTHENTICATED)
    else Fail(FORBIDDEN, PERMISSION_DENIED)
  }

  /** One element of the pending list: the serialized worker with `name`,
      `category` (the category's name) and `email` laid over it. */
  datatype PendingEntry = PendingEntry(id: Id, worker: WorkerRow, name: string, category: string, email: string)

  predicate Unverified(w: WorkerRow) {
    !w.isVerified
  }

  /** `category.name or ""`; an unset category gives "". */
  function CategoryName(categories: map<Id, CategoryRow>, w: WorkerRow): (name: string)
    requires w.category.Some? ==> w.category.value in categories
    ensures w.category.None? ==> name == ""
    ensures w.category.Some? ==> name == categories[w.category.value].name
  {
    if w.category.Some? then categories[w.category.value].name else ""
  }

  /** The user's e-mail, or "" when the user key is falsy (0). */
  function EmailOf(users: map<Id, UserRow>, w: WorkerRow): (email: string)
    requires w.user in users
    ensures w.user != 0 ==> email == users[w.user].email
    ensures w.user == 0 ==> email == ""
  {
    if w.user != 0 then users[w.user].email else ""
  }

  /** `e` is the pending entry of an unverified stored worker: its own row,
      its owner's display name, its category's name and its owner's e-mail. */
  predicate Describes(users: map<Id, UserRow>, categories: map<Id, CategoryRow>,
                      workers: map<Id, WorkerRow>, e: PendingEntry) {
    && e.id in workers
    && e.worker == workers[e.id]
    && !e.worker.isVerified
    && e.worker.user in users
    && (e.worker.category.Some? ==> e.worker.category.value in categories)
    && e.name == DisplayName(users[e.worker.user])
    && e.category == CategoryName(categories, e.worker)
    && e.email == EmailOf(users, e.worker)
  }

  /** The pending entry built for the stored worker `id`. */
  function EntryOf(users: map<Id, UserRow>, categories: map<Id, CategoryRow>,
                   workers: map<Id, WorkerRow>, id: Id): (e: PendingEntry)
    requires WorkersLinked(users, categories, workers)
    requires id in workers && !workers[id].isVerified
    ensures Describes(users, categories, workers, e) && e.id == id
  {
    var w := workers[id];
    PendingEntry(id, w, DisplayName(users[w.user]), CategoryName(categories, w), EmailOf(users, w))
  }

  /** `entries` holds the entries of the first `|entries|` workers of `pending`. */
  predicate Built(users: map<Id, UserRow>, categories: map<Id, CategoryRow>,
                  workers: map<Id, WorkerRow>, pending: seq<Id>, entries: seq<PendingEntry>) {
    && |entries| <= |pending|
    && forall k | 0 <= k < |entries| ::
         entries[k].id == pending[k] && Describes(users, categories, workers, entries[k])
  }

  lemma BuiltExtend(users: map<Id, UserRow>, categories: map<Id, CategoryRow>,
                    workers: map<Id, WorkerRow>, pending: seq<Id>, entries: seq<PendingEntry>)
    requires WorkersLinked(users, categories, workers)
    requires Built(users, categories, workers, pending, entries) && |entries| < |pending|
    requires pending[|entries|] in workers && !workers[pending[|entries|]].isVerified
    ensures Built(users, categories, workers, pending,
                  entries + [EntryOf(users, categories, workers, pending[|entries|])])
  {
  }

  /** `AdminPendingWorkersController.get` behind the admin check: the
      unverified workers in scan order, each with its owner's display name,
      its category's name and its owner's e-mail. */
  method PendingWorkers(user: Principal, users: map<Id, UserRow>, categories: map<Id, CategoryRow>,
                        workers: map<Id, WorkerRow>, order: seq<Id>)
    returns (r: Result<seq<PendingEntry>>)
    requires WorkersLinked(users, categories, workers)
    ensures r.Ok? <==> IsAdminUser(user)
    ensures r.Fail? ==> r == Fail(AdminCheck(user).status, AdminCheck(user).message)
    ensures r.Ok? ==> forall id :: (exists k :: 0 <= k < |r.value| && r.value[k].id == id) <==>
      id in order && id in workers && !workers[id].isVerified
    ensures r.Ok? ==> forall k | 0 <= k < |r.value| :: Describes(users, categories, workers, r.value[k])
    ensures r.Ok? ==> |r.value| == |Select(order, workers, Unverified)|
    ensures r.Ok? ==> forall k | 0 <= k < |r.value| :: r.value[k].id == Select(order, workers, Unverified)[k]
  {
    var check := AdminCheck(user);
    if check.Fail? {
      return Fail(check.status, check.message);
    }
    var pending := Select(order, workers, Unverified);
    var entries := [];
    var i := 0;
    while i < |pending|
      invariant 0 <= i <= |pending|
      invariant |entries| == i
      invariant Built(users, categories, workers, pending, entries)
    {
      var id := pending[i];
      assert id in pending;
      BuiltExtend(users, categories, workers, pending, entries);
      entries := entries + [EntryOf(users, categories, workers, id)];
      i := i + 1;
    }
    forall id | id in order && id in workers && !workers[id].isVerified
      ensures exists k :: 0 <= k < |entries| && entries[k].id == id
    {
      assert Unverified(workers[id]);
      assert id in pending;
      var k :| 0 <= k < |pending| && pending[k] == id;
      assert entries[k].id == id;
    }
    forall id | exists k :: 0 <= k < |entries| && entries[k].id == id
      ensures id in order && id in workers && !workers[id].isVerified
    {
      var k :| 0 <= k < |entries| && entries[k].id == id;
      assert pending[k] in pending;
    }
    r := Ok(entries);
  }

  /** The worker table after `is_verified` of `pk` is set to `flag`, or the
      same table when `pk` is absent. */
  function WithVerified(workers: map<Id, WorkerRow>, pk: Id, flag: bool): (result: map<Id, WorkerRow>)
    ensures result.Keys == workers.Keys
    ensures forall k | k in workers && k != pk :: result[k] == workers[k]
    ensures pk in workers ==> result[pk].isVerified == flag
    ensures pk in workers ==> result[pk].(isVerified := workers[pk].isVerified) == workers[pk]
  {
    if pk in workers then workers[pk := workers[pk].(isVerified := flag)] else workers
  }

  /** Setting the flag twice is setting it once; the later setting wins. */
  lemma {:induction false} LastVerdictWins(workers: map<Id, WorkerRow>, pk: Id, first: bool, second: bool)
    ensures WithVerified(WithVerified(workers, pk, first), pk, second) == WithVerified(workers, pk, second)
  {
  }

  /** Approving or rejecting keeps worker foreign keys resolving. */
  lemma VerdictKeepsLinks(users: map<Id, UserRow>, categories: map<Id, CategoryRow>,
                          workers: map<Id, WorkerRow>, pk: Id, flag: bool)
    requires WorkersLinked(users, categories, workers)
    ensures WorkersLinked(users, categories, WithVerified(workers, pk, flag))
  {
  }

  /** `AdminApproveWorkerController.post` behind the admin check. Only an
      admin changes the table. */
  method ApproveWorker(db: Database, user: Principal, pk: Id) returns (r: Result<WorkerRow>)
    requires db.Valid()
    modifies db
    ensures db.Valid()
    ensures !IsAdminUser(user) ==> r == Fail(AdminCheck(user).status, AdminCheck(user).message) && db.workers == old(db.workers)
    ensures IsAdminUser(user) ==> db.workers == WithVerified(old(db.workers), pk, true)
    ensures IsAdminUser(user) && pk in old(db.workers) ==> r == Ok(db.workers[pk]) && r.value.isVerified
    ensures IsAdminUser(user) && pk !in old(db.workers) ==> r == Fail(NOT_FOUND, "Worker not found")
    ensures db.users == old(db.users) && db.categories == old(db.categories)
    ensures db.reviews == old(db.reviews) && db.nextId == old(db.nextId)
  {
    var check := AdminCheck(user);
    if check.Fail? {
      return Fail(check.status, check.message);
    }
    if pk !in db.workers {
      return Fail(NOT_FOUND, "Worker not found");
    }
    VerdictKeepsLinks(db.users, db.categories, db.workers, pk, true);
    db.workers := WithVerified(db.workers, pk, true);
    r := Ok(db.workers[pk]);
  }

  /** `AdminRejectWorkerController.post` behind the admin check: the worker
      stays, unverified. Only an admin changes the table. */
  method RejectWorker(db: Database, user: Principal, pk: Id) returns (r: Result<()>)
    requires db.Valid()
    modifies db
    ensures db.Valid()
    ensures !IsAdminUser(user) ==> r == AdminCheck(user) && db.workers == old(db.workers)
    ensures IsAdminUser(user) ==> db.workers == WithVerified(old(db.workers), pk, false)
    ensures IsAdminUser(user) && pk in old(db.workers) ==> r == Ok(()) && !db.workers[pk].isVerified
    ensures IsAdminUser(user) && pk !in old(db.workers) ==> r == Fail(NOT_FOUND, "Worker not found")
    ensures db.users == old(db.users) && db.categories == old(db.categories)
    ensures db.reviews == old(db.reviews) && db.nextId == old(db.nextId)
  {
    var check := AdminCheck(user);
    if check.Fail? {
      return check;
    }
    if pk !in db.workers {
      return Fail(NOT_FOUND, "Worker not found");
    }
    VerdictKeepsLinks(db.users, db.categories, db.workers, pk, false);
    db.workers := WithVerified(db.workers, pk, false);
    r := Ok(());
  }

  /** An approved worker leaves the pending list; a rejected one (back) on it. */
  lemma {:induction false} VerdictMovesPending(workers: map<Id, WorkerRow>, order: seq<Id>, pk: Id, flag: bool)
    requires pk in workers && pk in order
    ensures pk in Select(order, WithVerified(workers, pk, flag), Unverified) <==> !flag
  {
  }
}
