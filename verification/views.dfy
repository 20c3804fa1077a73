/** The request handlers of api/views.py that carry rules of their own:
    signup as get-or-create on the user table, the token exchange, the
    self-service profile route, review and title creation, and the choice of
    serializer and of allowed methods for the title routes.

    The confirmation code and the access token are produced and checked by
    functions outside the application; `checkToken` stands for the check.
    Sending the confirmation mail is not modelled: a successful signup
    response is where the source sends it. */
module Views {
  import opened Text
  import opened Users
  import opened Catalog
  import opened Permissions
  import opened Serializers
  import Validators

  // ---------------------------------------------------------------------
  // Writes to the user table
  // ---------------------------------------------------------------------

  /** What the database raises when a user row is written: a DataError for a
      value longer than its varchar column, an IntegrityError for the
      `name_not_me` check or a duplicate username or email. */
  datatype DbError = DataError | IntegrityError

  function UserWriteError(users: map<Id, User>, id: Id, u: User): (r: Option<DbError>)
    ensures r.None? ==> StoredUserValid(u)
  {
    if |u.username| > USERNAME_MAX_LENGTH || |u.email| > EMAIL_MAX_LENGTH
       || |u.firstName| > NAME_MAX_LENGTH || |u.lastName| > NAME_MAX_LENGTH then Some(DataError)
    else if u.username == RESERVED_USERNAME then Some(IntegrityError)
    else if exists k :: k in users && k != id && (users[k].username == u.username || users[k].email == u.email)
    then Some(IntegrityError)
    else None
  }

  /** A write the database accepts keeps the user table valid. */
  lemma AcceptedWriteKeepsTableValid(users: map<Id, User>, id: Id, u: User)
    requires UserTableValid(users)
    requires UserWriteError(users, id, u).None?
    ensures UserTableValid(users[id := u])
  {
  }

  // ---------------------------------------------------------------------
  // Signup (create_user)
  // ---------------------------------------------------------------------

  datatype SignUpResponse =
    | SignUpOk(username: string, email: string)   // 200, confirmation mail sent to `email`
    | SignUpBadRequest(check: SignUpCheck)        // 400 from the serializer
    | SignUpIntegrityError                        // 400, the IntegrityError handler
    | SignUpServerError                           // 500, an error the view does not catch

  /** create_user on the user table `users`, with `newKey` the key the next
      insert receives: the response and the table afterwards. */
  function SignUp(users: map<Id, User>, newKey: Id, username: string, email: string,
                  isWord: char -> bool, isEmail: string -> bool): (SignUpResponse, map<Id, User>)
  {
    var check := ValidateSignUp(users, username, email, isWord, isEmail);
    if !check.SignUpAccepted? then (SignUpBadRequest(check), users)
    else if ExactPairExists(users, username, email) then (SignUpOk(username, email), users)
    else
      var u := NewUser(username, email);
      match UserWriteError(users, newKey, u)
      case Some(DataError) => (SignUpServerError, users)
      case Some(IntegrityError) => (SignUpIntegrityError, users)
      case None => (SignUpOk(username, email), users[newKey := u])
  }

  /** get_or_create adds no user when the exact (username, email) pair is
      stored, and otherwise at most the one new user with those fields and
      the default role; a refused request changes nothing. */
  lemma SignUpEffect(users: map<Id, User>, newKey: Id, username: string, email: string,
                     isWord: char -> bool, isEmail: string -> bool)
    requires newKey !in users
    ensures var (r, after) := SignUp(users, newKey, username, email, isWord, isEmail);
      && (after == users || after == users[newKey := NewUser(username, email)])
      && (ExactPairExists(users, username, email) ==> after == users)
      && (!r.SignUpOk? ==> after == users)
      && (r.SignUpOk? ==> ExactPairExists(after, username, email))
      && (r.SignUpOk? ==> r.username == username && r.email == email)
  {
  }

  /** The validation makes the IntegrityError handler unreachable: accepted
      data either names a stored pair, which get_or_create finds, or collides
      with no stored username or email even up to case. */
  lemma SignUpNeverIntegrityError(users: map<Id, User>, newKey: Id, username: string, email: string,
                                  isWord: char -> bool, isEmail: string -> bool)
    requires UserTableValid(users) && newKey !in users
    ensures SignUp(users, newKey, username, email, isWord, isEmail).0 != SignUpIntegrityError
  {
  }

  /** The email field admits 254 characters, the column 150: accepted data
      with a longer new email reaches the database and is refused there with
      an error the view does not catch, and nothing is stored. */
  lemma SignUpLongEmailIsServerError(users: map<Id, User>, newKey: Id, username: string, email: string,
                                     isWord: char -> bool, isEmail: string -> bool)
    requires ValidateSignUp(users, username, email, isWord, isEmail).SignUpAccepted?
    requires !ExactPairExists(users, username, email)
    requires |email| > EMAIL_MAX_LENGTH
    ensures SignUp(users, newKey, username, email, isWord, isEmail) == (SignUpServerError, users)
  {
  }

  /** Signing up twice in a row with the same data: if the first request
      succeeds, the second succeeds too and adds no second user. */
  lemma {:induction false} SignUpIdempotent(users: map<Id, User>, newKey: Id, newKey2: Id,
                                            username: string, email: string,
                                            isWord: char -> bool, isEmail: string -> bool)
    requires newKey !in users
    requires SignUp(users, newKey, username, email, isWord, isEmail).0.SignUpOk?
    ensures var after := SignUp(users, newKey, username, email, isWord, isEmail).1;
      SignUp(after, newKey2, username, email, isWord, isEmail) == (SignUpOk(username, email), after)
  {
    var after := SignUp(users, newKey, username, email, isWord, isEmail).1;
    SignUpEffect(users, newKey, username, email, isWord, isEmail);
    SignUpRule(users, username, email, isWord, isEmail);
    SignUpRule(after, username, email, isWord, isEmail);
  }

  // ---------------------------------------------------------------------
  // Token exchange (create_token)
  // ---------------------------------------------------------------------

  const TOKEN_INVALID_MESSAGE: string := "Пользователь не обнаружен"
  const TOKEN_USERNAME_MAX_LENGTH: nat := 150

  datatype TokenResponse =
    | TokenBadRequest            // 400 from the serializer
    | TokenNotFound              // 404 from get_object_or_404
    | TokenIssued(user: Id)      // 200 with an access token for `user`
    | TokenInvalidCode(message: string)  // 400 with a fixed message

  /** The TokenSerializer fields: a non-blank username of at most 150
      characters and a non-blank code. */
  predicate TokenFieldsValid(username: string, code: string)
  {
    0 < |username| <= TOKEN_USERNAME_MAX_LENGTH && |code| > 0
  }

  predicate UsernameExists(users: map<Id, User>, username: string)
  {
    exists k :: k in users && users[k].username == username
  }

  // ---------------------------------------------------------------------
  // The user table as the views change it
  // ---------------------------------------------------------------------

  datatype ProfileResponse =
    | ProfileOk(user: User)                       // 200 with the caller's record
    | ProfileUnauthorized                         // 401, no identified caller
    | ProfileBadRequest(errors: set<FieldError>)  // 400 from the serializer
    | ProfileNotAllowed                           // 405
    | ProfileServerError                          // 500, an error the view does not catch

  /** The caller of a request, as authentication loaded it from the table. */
  predicate CallerStored(users: map<Id, User>, a: Actor)
  {
    a.Member? ==> a.id in users && users[a.id] == a.user
  }

  /** UserViewSet.edit_own_profile on the table `users`: the response and the
      table afterwards. The route requires an identified caller; GET returns
      the caller's record; PATCH validates the present fields and saves them
      with the role set to the caller's current role; any other method is
      not allowed. */
  function ProfileEdit(users: map<Id, User>, m: HttpMethod, a: Actor, p: ProfilePatch,
                          isWord: char -> bool, isEmail: string -> bool): (ProfileResponse, map<Id, User>)
    requires CallerStored(users, a)
  {
    if a.Anonymous? then (ProfileUnauthorized, users)
    else if m == Get then (ProfileOk(users[a.id]), users)
    else if m == Patch then
      var errors := ProfilePatchErrors(users, a.id, p, isWord, isEmail);
      if errors != {} then (ProfileBadRequest(errors), users)
      else
        var u := ApplyProfilePatch(users[a.id], p, a.user.role);
        if UserWriteError(users, a.id, u).Some? then (ProfileServerError, users)
        else (ProfileOk(u), users[a.id := u])
    else (ProfileNotAllowed, users)
  }

  /** The self-service route never changes a role and never touches another
      user; only a successful PATCH changes anything, and then only the
      caller's own row, which the response returns. */
  lemma ProfileEditKeepsRoles(users: map<Id, User>, m: HttpMethod, a: Actor, p: ProfilePatch,
                                 isWord: char -> bool, isEmail: string -> bool)
    requires CallerStored(users, a)
    ensures var (r, after) := ProfileEdit(users, m, a, p, isWord, isEmail);
      && after.Keys == users.Keys
      && (forall k :: k in after ==> after[k].role == users[k].role)
      && (forall k :: k in after && (a.Anonymous? || k != a.id) ==> after[k] == users[k])
      && (after != users ==> m == Patch && r.ProfileOk? && after == users[a.id := r.user])
      && (m == Get && a.Member? ==> r == ProfileOk(users[a.id]) && after == users)
      && (m != Get && m != Patch && a.Member? ==> r == ProfileNotAllowed && after == users)
  {
  }

  /** PATCH of the caller's own record keeps the user table valid. */
  lemma ProfileEditKeepsTableValid(users: map<Id, User>, m: HttpMethod, a: Actor, p: ProfilePatch,
                                      isWord: char -> bool, isEmail: string -> bool)
    requires CallerStored(users, a) && UserTableValid(users)
    ensures UserTableValid(ProfileEdit(users, m, a, p, isWord, isEmail).1)
  {
  }

  /** A plain user who PATCHes `{"role": "admin"}` gets 200 and stays a plain
      user: the payload's role is never read. */
  lemma PatchingRoleToAdminIsIgnored(users: map<Id, User>, a: Actor,
                                     isWord: char -> bool, isEmail: string -> bool)
    requires CallerStored(users, a) && UserTableValid(users)
    requires a.Member? && a.user.role == UserRole
    ensures var p := ProfilePatch(None, None, None, None, None, Some(ADMIN));
      ProfileEdit(users, Patch, a, p, isWord, isEmail) == (ProfileOk(a.user), users)
  {
    var p := ProfilePatch(None, None, None, None, None, Some(ADMIN));
    assert ApplyProfilePatch(users[a.id], p, a.user.role) == a.user;
    assert users[a.id := a.user] == users;
  }

  /** The user table together with the next key its sequence hands out. */
  class UserStore {
    var users: map<Id, User>
    var nextId: Id

    ghost predicate Valid()
      reads this
    {
      UserTableValid(users) && forall k :: k in users ==> k < nextId
    }

    constructor ()
      ensures Valid() && users == map[]
    {
      users := map[];
      nextId := 1;
    }

    /** create_user. */
    method CreateUser(username: string, email: string, isWord: char -> bool, isEmail: string -> bool)
      returns (r: SignUpResponse)
      requires Valid()
      modifies this
      ensures Valid()
      ensures (r, users) == SignUp(old(users), old(nextId), username, email, isWord, isEmail)
      ensures r != SignUpIntegrityError
    {
      SignUpNeverIntegrityError(users, nextId, username, email, isWord, isEmail);
      var check := ValidateSignUp(users, username, email, isWord, isEmail);
      if !check.SignUpAccepted? {
        return SignUpBadRequest(check);
      }
      if ExactPairExists(users, username, email) {
        return SignUpOk(username, email);
      }
      var u := NewUser(username, email);
      var err := UserWriteError(users, nextId, u);
      if err == Some(DataError) {
        r := SignUpServerError;
      } else if err == Some(IntegrityError) {
        r := SignUpIntegrityError;
      } else {
        AcceptedWriteKeepsTableValid(users, nextId, u);
        users := users[nextId := u];
        nextId := nextId + 1;
        r := SignUpOk(username, email);
      }
    }

    /** create_token: the code is checked against the user the username
        names; an unknown username is 404 and a wrong code 400, two distinct
        outcomes. */
    method CreateToken(username: string, code: string, checkToken: (User, string) -> bool)
      returns (r: TokenResponse)
      requires Valid()
      ensures r == TokenBadRequest <==> !TokenFieldsValid(username, code)
      ensures r == TokenNotFound <==> TokenFieldsValid(username, code) && !UsernameExists(users, username)
      ensures r.TokenIssued? <==>
        TokenFieldsValid(username, code) &&
        exists k :: k in users && users[k].username == username && checkToken(users[k], code)
      ensures r.TokenIssued? ==>
        r.user in users && users[r.user].username == username && checkToken(users[r.user], code)
      ensures r.TokenInvalidCode? ==> r.message == TOKEN_INVALID_MESSAGE
    {
      if !TokenFieldsValid(username, code) {
        return TokenBadRequest;
      }
      if !UsernameExists(users, username) {
        return TokenNotFound;
      }
      var k :| k in users && users[k].username == username;
      if checkToken(users[k], code) {
        r := TokenIssued(k);
      } else {
        r := TokenInvalidCode(TOKEN_INVALID_MESSAGE);
      }
    }

    /** UserViewSet.edit_own_profile. */
    method EditOwnProfile(m: HttpMethod, a: Actor, p: ProfilePatch,
                          isWord: char -> bool, isEmail: string -> bool)
      returns (r: ProfileResponse)
      requires Valid() && CallerStored(users, a)
      modifies this`users
      ensures Valid()
      ensures (r, users) == ProfileEdit(old(users), m, a, p, isWord, isEmail)
    {
      if a.Anonymous? {
        return ProfileUnauthorized;
      }
      if m == Get {
        return ProfileOk(users[a.id]);
      }
      if m != Patch {
        return ProfileNotAllowed;
      }
      var errors := ProfilePatchErrors(users, a.id, p, isWord, isEmail);
      if errors != {} {
        return ProfileBadRequest(errors);
      }
      var u := ApplyProfilePatch(users[a.id], p, a.user.role);
      if UserWriteError(users, a.id, u).Some? {
        return ProfileServerError;
      }
      AcceptedWriteKeepsTableValid(users, a.id, u);
      users := users[a.id := u];
      r := ProfileOk(u);
    }
  }

  // ---------------------------------------------------------------------
  // Reviews and titles
  // ---------------------------------------------------------------------

  datatype CreateResponse =
    | Created(id: Id)     // 201
    | Denied              // 401/403 from the permission check
    | BadRequest          // 400 from the serializer
    | NotFound            // 404 from get_object_or_404

  /** POST to the reviews of title `titleId` (ReviewViewSet with
      ReviewSerializer): the permission check, then the serializer (a
      non-blank text, a score in range, no earlier review by the author),
      then the title lookup, then the insert under the key `newKey`. */
  function CreateReview(db: Db, a: Actor, titleId: Id, text: string, score: int, newKey: Id)
    : (CreateResponse, Db)
  {
    if Authorize(AuthorAdminModeratorOrReadOnly, Post, a, None) != Grant then (Denied, db)
    else if |text| == 0 || !ScoreFieldValid(score)
            || ValidateReview(Post, titleId, a.id, db.reviews).Some? then (BadRequest, db)
    else if titleId !in db.titles then (NotFound, db)
    else (Created(newKey), db.(reviews := db.reviews[newKey := Review(a.id, titleId, text, score)]))
  }

  /** Creating a review keeps the database consistent, the one-review-per-
      author-and-title rule included, and keeps every score in range; a
      second review by the same author of the same title is refused and
      never stored. */
  lemma CreateReviewKeepsInvariants(db: Db, a: Actor, titleId: Id, text: string, score: int, newKey: Id)
    requires Consistent(db) && ScoresInRange(db)
    requires a.Member? ==> a.id in db.users
    requires newKey !in db.reviews
    ensures var (r, after) := CreateReview(db, a, titleId, text, score, newKey);
      && Consistent(after) && ScoresInRange(after)
      && (r.Created? <==> after != db)
      && (a.Member? && HasReviewed(db.reviews, a.id, titleId) ==> r == BadRequest && after == db)
      && (a.Anonymous? ==> r == Denied)
  {
  }

  /** POST to the titles (TitleViewSet with TitleSerializerCreateAndUpdate):
      admin only; the name at most 256 characters; the category and every
      genre named by an existing slug; the year within the 32-bit column
      (the range validators the serializer copies from the model field) and
      checked both by the model's validator and by the serializer's `validate_year` against the current
      year `now`; then the insert under the key `newKey`. */
  ghost function CreateTitle(db: Db, a: Actor, name: string, year: int, description: string,
                       categorySlug: string, genreSlugs: seq<string>, now: int, newKey: Id)
    : (CreateResponse, Db)
  {
    if Authorize(IsAdminOrReadOnly, Post, a, None) != Grant then (Denied, db)
    else if |name| == 0 || |name| > ENTRY_NAME_MAX_LENGTH
            || !InIntegerRange(year)
            || Validators.ValidateYear(year, now).Some? || ValidateTitleYear(year, now).Err?
            || !(exists c :: c in db.categories && db.categories[c].slug == categorySlug)
            || !(forall s :: s in genreSlugs ==> exists g :: g in db.genres && db.genres[g].slug == s)
    then (BadRequest, db)
    else
      var c :| c in db.categories && db.categories[c].slug == categorySlug;
      var genres := set g | g in db.genres && db.genres[g].slug in genreSlugs;
      (Created(newKey), db.(titles := db.titles[newKey := Title(name, year, description, genres, Some(c))]))
  }

  /** A title created through the API never lies after the current year nor
      outside the year column, and creating it keeps the database
      consistent. */
  lemma CreateTitleKeepsInvariants(db: Db, a: Actor, name: string, year: int, description: string,
                                   categorySlug: string, genreSlugs: seq<string>, now: int, newKey: Id)
    requires Consistent(db) && ScoresInRange(db)
    requires newKey !in db.titles
    ensures var (r, after) := CreateTitle(db, a, name, year, description, categorySlug, genreSlugs, now, newKey);
      && Consistent(after) && ScoresInRange(after)
      && (r.Created? ==> newKey in after.titles && after.titles[newKey].year <= now)
      && (year > now || !InIntegerRange(year) ==> after == db)
      && (r.Created? ==> a.Member? && IsAdmin(a.user))
  {
  }

  // ---------------------------------------------------------------------
  // Routing of the title routes
  // ---------------------------------------------------------------------

  datatype Action = List | Retrieve | Create | Update | PartialUpdate | Destroy

  datatype TitleSerializerKind = TitleWriteSerializer | TitleReadSerializer

  /** TitleViewSet.get_serializer_class. */
  function TitleSerializerFor(action: Action): TitleSerializerKind
  {
    if action == Create || action == PartialUpdate || action == Destroy then TitleWriteSerializer
    else TitleReadSerializer
  }

  /** The router's action for a method on the collection route or on the
      route of one object; `None` where no action is bound. */
  function RouteAction(m: HttpMethod, detail: bool): Option<Action>
  {
    match m
    case Get => Some(if detail then Retrieve else List)
    case Post => if detail then None else Some(Create)
    case Put => if detail then Some(Update) else None
    case Patch => if detail then Some(PartialUpdate) else None
    case Delete => if detail then Some(Destroy) else None
    case Head => None
    case Options => None
  }

  /** `http_method_names` of TitleViewSet and of UserViewSet. */
  predicate MethodListed(m: HttpMethod)
  {
    m == Get || m == Post || m == Delete || m == Patch
  }

  /** The serializer a request to the title routes is served with, or `None`
      for a 405. */
  function TitleRoute(m: HttpMethod, detail: bool): Option<TitleSerializerKind>
  {
    if !MethodListed(m) then None
    else match RouteAction(m, detail)
      case None => None
      case Some(action) => Some(TitleSerializerFor(action))
  }

  /** PUT (and HEAD and OPTIONS, which the method list leaves out too) never
      reaches the title handlers; create, partial update and delete use the
      write serializer and the two reads use the read serializer. */
  lemma TitleRouteTable(m: HttpMethod, detail: bool)
    ensures m == Put || m == Head || m == Options ==> TitleRoute(m, detail).None?
    ensures TitleRoute(m, detail) == Some(TitleWriteSerializer) <==>
      (m == Post && !detail) || (m == Patch && detail) || (m == Delete && detail)
    ensures TitleRoute(m, detail) == Some(TitleReadSerializer) <==> m == Get
    ensures TitleSerializerFor(Update) == TitleReadSerializer
  {
  }
}
