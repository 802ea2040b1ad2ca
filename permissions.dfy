/** The permission classes of utils/permissions.py, as predicates over the
    requesting user, the HTTP verb and the object's owner attributes. */
module Permissions {
  import opened Wrappers
  import opened Store

  /** DRF's `SAFE_METHODS`: the read-only methods. */
  const SAFE_METHODS: set<string> := {"GET", "HEAD", "OPTIONS"}

  /** The owner attributes an object may carry: `obj.user` and `obj.author`,
      `None` when the object has no such attribute. */
  datatype Owners = Owners(user: Option<Id>, author: Option<Id>)

  /** `IsWorker.has_permission`. DRF always sets `request.user`, so the first
      conjunct of the source (`request.user`) is always true here. Only a
      registered user with the worker role passes: the anonymous user never
      does, and unlike `IsAdminUser` the staff flag grants nothing. */
  function IsWorkerPermission(user: Principal): (allowed: bool)
    ensures allowed <==> user.Registered? && user.role == Worker
  {
    IsAuthenticated(user) && user.role == Worker
  }

  /** `getattr(obj, attr, None) == request.user`: a model instance equals a user
      with the same primary key; `None` and the anonymous user equal no stored user. */
  predicate SameUser(attr: Option<Id>, user: Principal) {
    attr.Some? && user.Registered? && attr.value == user.id
  }

  /** `IsOwnerOrReadOnly.has_object_permission`: every safe verb is allowed,
      whoever asks and whatever the object; any other verb is allowed exactly
      to the registered user named by `obj.user` or `obj.author`. */
  function IsOwnerOrReadOnly(verb: string, user: Principal, obj: Owners): (allowed: bool)
    ensures verb in SAFE_METHODS ==> allowed
    ensures verb !in SAFE_METHODS ==>
      (allowed <==> user.Registered? && (obj.user == Some(user.id) || obj.author == Some(user.id)))
  {
    if verb in SAFE_METHODS then true
    else SameUser(obj.user, user) || SameUser(obj.author, user)
  }

  /** An object with neither `user` nor `author` can be written by nobody. */
  lemma OwnerlessIsReadOnly(verb: string, user: Principal)
    requires verb !in SAFE_METHODS
    ensures !IsOwnerOrReadOnly(verb, user, Owners(None, None))
  {
  }
}
