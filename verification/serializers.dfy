/** The validation rules of api/serializers.py: the title year, the
    one-review-per-title check, the username and email fields, the signup
    collision rule and the profile edit serializer in which the role is
    read-only. Each rule compares the submitted data with the stored rows
    and either returns the data or reports an error. */
module Serializers {
  import opened Text
  import opened Users
  import opened Catalog
  import opened Permissions
  import Validators

  // ---------------------------------------------------------------------
  // Titles
  // ---------------------------------------------------------------------

  const TITLE_YEAR_MESSAGE: string := "\"year\" не может быть позднее текущего года."

  /** TitleSerializerCreateAndUpdate.validate_year: the value back unchanged,
      or a fixed message when it lies after the current year `now`. */
  function ValidateTitleYear(value: int, now: int): Result<int, string>
  {
    if value > now then Err(TITLE_YEAR_MESSAGE) else Ok(value)
  }

  /** The serializer's year check refuses exactly what the model's
      `validate_year` refuses, and hands an accepted year back unchanged. */
  lemma TitleYearAgreesWithModel(value: int, now: int)
    ensures ValidateTitleYear(value, now).Ok? <==> Validators.ValidateYear(value, now).None?
    ensures ValidateTitleYear(value, now).Ok? ==> ValidateTitleYear(value, now).value == value
    ensures ValidateTitleYear(now, now) == Ok(now)
  {
  }

  // ---------------------------------------------------------------------
  // Reviews
  // ---------------------------------------------------------------------

  const DUPLICATE_REVIEW_MESSAGE: string := "Вы уже оставили отзыв на это произведение."

  predicate HasReviewed(reviews: map<Id, Review>, author: Id, title: Id)
  {
    exists r :: r in reviews && reviews[r].author == author && reviews[r].title == title
  }

  /** ReviewSerializer.validate: on a POST, an error when the requesting user
      has already reviewed the title named by the route; `None` otherwise. */
  function ValidateReview(m: HttpMethod, titleId: Id, author: Id, reviews: map<Id, Review>): Option<string>
  {
    if m == Post && HasReviewed(reviews, author, titleId) then Some(DUPLICATE_REVIEW_MESSAGE)
    else None
  }

  /** A POST is refused exactly when the author already has a review of the
      title; no other method is ever refused by this check. */
  lemma ValidateReviewContract(m: HttpMethod, titleId: Id, author: Id, reviews: map<Id, Review>)
    ensures ValidateReview(m, titleId, author, reviews).Some? <==>
      m == Post && exists r :: r in reviews && reviews[r].author == author && reviews[r].title == titleId
    ensures m != Post ==> ValidateReview(m, titleId, author, reviews).None?
  {
  }

  /** The score field, with the model's MinValueValidator and
      MaxValueValidator. */
  predicate ScoreFieldValid(score: int)
  {
    ScoreInRange(score)
  }

  // ---------------------------------------------------------------------
  // User fields
  // ---------------------------------------------------------------------

  /** `max_length` of the serializer email fields (the model column has 150). */
  const EMAIL_FIELD_MAX_LENGTH: nat := 254
  const RESERVED_USERNAME_MESSAGE: string := "\"me\" не может быть использован в качестве Username!"
  const SIGNUP_CONFLICT_MESSAGE: string := "Пользователь с таким именем или email существует"

  /** The username RegexField: the pattern and at most 150 characters. */
  predicate UsernameFieldValid(s: string, isWord: char -> bool)
  {
    |s| <= USERNAME_MAX_LENGTH && UsernamePattern(s, isWord)
  }

  /** The EmailField: at most 254 characters and an address `isEmail` accepts. */
  predicate EmailFieldValid(s: string, isEmail: string -> bool)
  {
    |s| <= EMAIL_FIELD_MAX_LENGTH && isEmail(s)
  }

  /** SignUpSerializer.validate_username: only the exact string `me` is
      refused. */
  function ValidateUsername(value: string): Result<string, string>
  {
    if value == RESERVED_USERNAME then Err(RESERVED_USERNAME_MESSAGE) else Ok(value)
  }

  lemma ValidateUsernameContract(value: string)
    ensures ValidateUsername(value).Err? <==> value == "me"
    ensures ValidateUsername(value).Ok? ==> ValidateUsername(value).value == value
    ensures ValidateUsername("Me").Ok? && ValidateUsername("ME").Ok?
  {
  }

  // ---------------------------------------------------------------------
  // Signup
  // ---------------------------------------------------------------------

  predicate ExactPairExists(users: map<Id, User>, username: string, email: string)
  {
    exists k :: k in users && users[k].username == username && users[k].email == email
  }

  predicate LooseMatchExists(users: map<Id, User>, username: string, email: string)
  {
    exists k :: k in users && (IEquals(users[k].username, username) || IEquals(users[k].email, email))
  }

  /** SignUpSerializer.validate: an exact (username, email) match lets the
      data through; otherwise a case-insensitive match of either field is
      refused; otherwise the data passes. `None` means the data passes. */
  function SignUpCollision(users: map<Id, User>, username: string, email: string): Option<string>
  {
    if ExactPairExists(users, username, email) then None
    else if LooseMatchExists(users, username, email) then Some(SIGNUP_CONFLICT_MESSAGE)
    else None
  }

  datatype FieldError = EmailInvalid | UsernameInvalid | UsernameReserved
                      | UsernameTaken | EmailTaken | NameTooLong

  datatype SignUpCheck =
    | SignUpAccepted(username: string, email: string)
    | SignUpInvalid(errors: set<FieldError>)
    | SignUpConflict(message: string)

  /** The errors of the two signup fields, each field checked on its own:
      the username first by its RegexField, then, if that passes, by
      `validate_username`. A field that fails several of its validators at
      once reports each message; here a field carries one error kind, and
      only which fields fail is modelled. */
  function SignUpFieldErrors(username: string, email: string,
                             isWord: char -> bool, isEmail: string -> bool): set<FieldError>
  {
    (if EmailFieldValid(email, isEmail) then {} else {EmailInvalid})
    + (if !UsernameFieldValid(username, isWord) then {UsernameInvalid}
       else if ValidateUsername(username).Err? then {UsernameReserved}
       else {})
  }

  /** SignUpSerializer.is_valid: the field checks, and the object-level
      `validate` only when every field passed. */
  function ValidateSignUp(users: map<Id, User>, username: string, email: string,
                          isWord: char -> bool, isEmail: string -> bool): SignUpCheck
  {
    var errors := SignUpFieldErrors(username, email, isWord, isEmail);
    if errors != {} then SignUpInvalid(errors)
    else match SignUpCollision(users, username, email)
      case Some(msg) => SignUpConflict(msg)
      case None => SignUpAccepted(username, email)
  }

  /** The signup rule in full. Valid fields and an exact stored pair: the data
      comes back unchanged. Valid fields, no exact pair, and a stored username
      or email equal up to case: refused. Valid fields and no such match:
      unchanged. Accepted data always has a well-formed username other than
      `me` and a well-formed email of at most 254 characters. */
  lemma SignUpRule(users: map<Id, User>, username: string, email: string,
                   isWord: char -> bool, isEmail: string -> bool)
    ensures var r := ValidateSignUp(users, username, email, isWord, isEmail);
      && (r.SignUpAccepted? ==> r.username == username && r.email == email)
      && (r.SignUpAccepted? <==>
            UsernameFieldValid(username, isWord) && username != "me" &&
            EmailFieldValid(email, isEmail) &&
            (ExactPairExists(users, username, email) || !LooseMatchExists(users, username, email)))
      && (r.SignUpConflict? <==>
            UsernameFieldValid(username, isWord) && username != "me" &&
            EmailFieldValid(email, isEmail) &&
            !ExactPairExists(users, username, email) && LooseMatchExists(users, username, email))
  {
  }

  /** The case asymmetry: with `Bob` / `bob@x` stored, `bob` / `bob@x` is not
      an exact pair, but it matches both fields up to case and is refused;
      `Bob` / `bob@x` itself passes. */
  lemma SignUpCaseAsymmetry(isWord: char -> bool, isEmail: string -> bool)
    requires UsernameFieldValid("bob", isWord) && UsernameFieldValid("Bob", isWord)
    requires EmailFieldValid("bob@x", isEmail)
    ensures var users := map[1 := NewUser("Bob", "bob@x")];
      ValidateSignUp(users, "bob", "bob@x", isWord, isEmail).SignUpConflict? &&
      ValidateSignUp(users, "Bob", "bob@x", isWord, isEmail) == SignUpAccepted("Bob", "bob@x")
  {
    var users := map[1 := NewUser("Bob", "bob@x")];
    assert Lower("Bob") == "bob" == Lower("bob");
    assert IEquals(users[1].username, "bob");
    assert !ExactPairExists(users, "bob", "bob@x");
    assert ExactPairExists(users, "Bob", "bob@x");
  }

  // ---------------------------------------------------------------------
  // Profile edit (UserEditSerializer, partial)
  // ---------------------------------------------------------------------

  /** A PATCH payload: each field may be absent. */
  datatype ProfilePatch = ProfilePatch(
    username: Option<string>,
    email: Option<string>,
    firstName: Option<string>,
    lastName: Option<string>,
    bio: Option<string>,
    role: Option<string>)

  function OrElse(o: Option<string>, s: string): string
  {
    if o.Some? then o.value else s
  }

  /** The errors of a partial update of the stored user `self`: the present
      fields are checked; username and email must also be unique among the
      other users; the role is read-only and never looked at. As in
      `SignUpFieldErrors`, each field carries one error kind, although a
      field can fail several of its validators at once. */
  function ProfilePatchErrors(users: map<Id, User>, self: Id, p: ProfilePatch,
                              isWord: char -> bool, isEmail: string -> bool): set<FieldError>
  {
    (if p.username.Some? && !UsernameFieldValid(p.username.value, isWord) then {UsernameInvalid}
     else if p.username.Some? &&
       (exists k :: k in users && k != self && users[k].username == p.username.value) then {UsernameTaken}
     else {})
    + (if p.email.Some? && !EmailFieldValid(p.email.value, isEmail) then {EmailInvalid}
       else if p.email.Some? &&
         (exists k :: k in users && k != self && users[k].email == p.email.value) then {EmailTaken}
       else {})
    + (if (p.firstName.Some? && |p.firstName.value| > NAME_MAX_LENGTH)
         || (p.lastName.Some? && |p.lastName.value| > NAME_MAX_LENGTH) then {NameTooLong}
       else {})
  }

  /** `serializer.save(role=...)` on the current record `u`: the present
      fields replace the stored ones and the role is set to `role`. */
  function ApplyProfilePatch(u: User, p: ProfilePatch, role: Role): User
  {
    User(OrElse(p.username, u.username), OrElse(p.email, u.email),
         OrElse(p.firstName, u.firstName), OrElse(p.lastName, u.lastName),
         OrElse(p.bio, u.bio), role, u.isSuperuser)
  }

  /** The payload's role is read-only: two payloads that differ only in the
      role they carry are judged alike and produce the same record. */
  lemma RoleIsReadOnly(users: map<Id, User>, self: Id, u: User, p: ProfilePatch, other: Option<string>,
                       role: Role, isWord: char -> bool, isEmail: string -> bool)
    ensures ProfilePatchErrors(users, self, p.(role := other), isWord, isEmail)
         == ProfilePatchErrors(users, self, p, isWord, isEmail)
    ensures ApplyProfilePatch(u, p.(role := other), role) == ApplyProfilePatch(u, p, role)
  {
  }
}
