/** The three permission policies of the API (api/permissions.py) and the
    way the REST framework combines a policy's collection-level and
    object-level answers for one request. */
module Permissions {
  import opened Text
  import opened Users

  datatype HttpMethod = Get | Head | Options | Post | Put | Patch | Delete

  /** The framework's SAFE_METHODS: GET, HEAD and OPTIONS. */
  predicate IsSafe(m: HttpMethod)
  {
    m == Get || m == Head || m == Options
  }

  /** Who makes the request: nobody identified, or a stored user with its id. */
  datatype Actor = Anonymous | Member(id: Id, user: User)

  predicate IsAuthenticated(a: Actor)
  {
    a.Member?
  }

  /** The object a detail route acts on: reviews and comments have an author;
      categories, genres, titles and users do not. */
  datatype Target = Unowned | Owned(author: Id)

  datatype Policy = IsAdminOrReadOnly | AuthorAdminModeratorOrReadOnly | IsAdminOnly

  /** The value of a permission expression. `Raise` is the AttributeError the
      expression runs into when it reads `author` of an object that has none,
      or `is_moderator` of the anonymous user, which has no such attribute. */
  datatype Check = Grant | Deny | Raise

  function FromBool(b: bool): Check
  {
    if b then Grant else Deny
  }

  /** `has_permission`: the collection-level answer. */
  predicate HasPermission(p: Policy, m: HttpMethod, a: Actor)
  {
    match p
    case IsAdminOrReadOnly =>
      IsSafe(m) || (IsAuthenticated(a) && IsAdmin(a.user))
    case AuthorAdminModeratorOrReadOnly =>
      IsSafe(m) || IsAuthenticated(a)
    case IsAdminOnly =>
      IsAuthenticated(a) && IsAdmin(a.user)
  }

  /** `has_object_permission`, evaluated left to right as Python does.
      IsAdminOnly does not define it, so the framework's default (grant)
      applies. */
  function HasObjectPermission(p: Policy, m: HttpMethod, a: Actor, obj: Target): Check
  {
    match p
    case IsAdminOrReadOnly =>
      FromBool(IsSafe(m) || (IsAuthenticated(a) && IsAdmin(a.user)))
    case AuthorAdminModeratorOrReadOnly =>
      if IsSafe(m) then Grant
      else if obj.Unowned? then Raise
      else if a.Member? && obj.author == a.id then Grant
      else if a.Anonymous? then Raise
      else FromBool(IsModerator(a.user) || IsAdmin(a.user))
    case IsAdminOnly =>
      Grant
  }

  /** The framework's order: `has_permission` first; only when it grants and
      the route names an object, `has_object_permission` on that object. */
  function Authorize(p: Policy, m: HttpMethod, a: Actor, obj: Option<Target>): Check
  {
    if !HasPermission(p, m, a) then Deny
    else if obj.None? then Grant
    else HasObjectPermission(p, m, a, obj.value)
  }

  // ---------------------------------------------------------------------
  // The access-control truth table
  // ---------------------------------------------------------------------

  /** IsAdminOrReadOnly: every safe method for everyone, anonymous included;
      an unsafe one exactly for an authenticated admin; the object, when
      there is one, changes nothing. */
  lemma AdminOrReadOnlyTable(m: HttpMethod, a: Actor, obj: Option<Target>)
    ensures IsSafe(m) ==> Authorize(IsAdminOrReadOnly, m, a, obj) == Grant
    ensures !IsSafe(m) ==>
      (Authorize(IsAdminOrReadOnly, m, a, obj) == Grant <==> a.Member? && IsAdmin(a.user))
    ensures Authorize(IsAdminOrReadOnly, m, a, obj) != Raise
    ensures obj.Some? ==>
      HasObjectPermission(IsAdminOrReadOnly, m, a, obj.value)
        == FromBool(HasPermission(IsAdminOrReadOnly, m, a))
  {
  }

  /** AuthorAdminModeratorOrReadOnly at collection level: safe methods for
      everyone, unsafe ones (creating a review or comment) for any
      authenticated user. */
  lemma AuthorCollectionTable(m: HttpMethod, a: Actor)
    ensures HasPermission(AuthorAdminModeratorOrReadOnly, m, a) <==> IsSafe(m) || a.Member?
  {
  }

  /** AuthorAdminModeratorOrReadOnly on an authored object: an unsafe method
      is granted exactly to its author, a moderator or an admin. The object
      check itself does not test authentication; the collection check before
      it is what keeps the anonymous user away, so the combined decision never
      raises. */
  lemma AuthorObjectTable(m: HttpMethod, a: Actor, author: Id)
    ensures IsSafe(m) ==> Authorize(AuthorAdminModeratorOrReadOnly, m, a, Some(Owned(author))) == Grant
    ensures !IsSafe(m) && a.Member? ==>
      (HasObjectPermission(AuthorAdminModeratorOrReadOnly, m, a, Owned(author)) == Grant <==>
         author == a.id || IsModerator(a.user) || IsAdmin(a.user))
    ensures !IsSafe(m) ==>
      (Authorize(AuthorAdminModeratorOrReadOnly, m, a, Some(Owned(author))) == Grant <==>
         a.Member? && (author == a.id || IsModerator(a.user) || IsAdmin(a.user)))
    ensures Authorize(AuthorAdminModeratorOrReadOnly, m, a, Some(Owned(author))) != Raise
    ensures !IsSafe(m) && a.Anonymous? ==>
      HasObjectPermission(AuthorAdminModeratorOrReadOnly, m, a, Owned(author)) == Raise
  {
  }

  /** IsAdminOnly: granted exactly to an authenticated admin, whatever the
      method (a plain user is refused even GET) and whatever the object. */
  lemma AdminOnlyTable(m: HttpMethod, a: Actor, obj: Option<Target>)
    ensures Authorize(IsAdminOnly, m, a, obj) == Grant <==> a.Member? && IsAdmin(a.user)
    ensures Authorize(IsAdminOnly, m, a, obj) != Raise
  {
  }

  /** The actor with its role raised to admin. */
  function Promote(a: Actor): (b: Actor)
    requires a.Member?
    ensures b.Member? && b.id == a.id && IsAdmin(b.user)
  {
    Member(a.id, a.user.(role := Admin))
  }

  /** Monotonicity: whatever a policy grants an authenticated actor, it still
      grants once that actor's role becomes admin. */
  lemma GrantSurvivesPromotion(p: Policy, m: HttpMethod, a: Actor, obj: Option<Target>)
    requires a.Member?
    requires Authorize(p, m, a, obj) == Grant
    ensures Authorize(p, m, Promote(a), obj) == Grant
  {
  }

  /** An admin is granted every request on an authored object or a
      collection, under every policy. */
  lemma AdminGrantedEverything(p: Policy, m: HttpMethod, a: Actor, obj: Option<Target>)
    requires a.Member? && IsAdmin(a.user)
    requires obj.None? || obj.value.Owned? || p != AuthorAdminModeratorOrReadOnly
    ensures Authorize(p, m, a, obj) == Grant
  {
  }
}
