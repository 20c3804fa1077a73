# yamdb core, modelled in Dafny

This project models the rules at the centre of the yamdb review service, a Django REST backend. The service has users with roles (`user`, `moderator`, `admin`), categories, genres, titles, reviews and comments. The model covers:

- the role model and its capabilities;
- the three permission policies, and the order in which the REST framework combines them;
- the model-level year validator;
- the serializer rules: title year, one review per title, signup collisions, and the read-only role on profile edit;
- the views for signup, token exchange, the own-profile route, and review and title creation;
- the cascades of the domain tables;
- the CSV upload pages of the admin site;
- the `import_csv` management command.

Modules, one per source file:

- `Text`: shared helpers. `Option` and `Result`, ASCII case folding (standing for `iexact`), decimal `int()`/`str()`, `join` and a character count.
- `Users` (users/models.py): roles, `is_moderator` and `is_admin`, and the stored-user constraints.
- `Permissions` (api/permissions.py): the three policies and the framework's evaluation order.
- `Validators` (reviews/validators.py): `validate_year`, with the current year as a parameter.
- `Catalog` (reviews/models.py): the domain tables as maps from key to row, their database constraints, and what deleting a row does.
- `Serializers` (api/serializers.py): the validation rules.
- `Views` (api/views.py):
  - signup, token exchange and profile edit as methods of a `UserStore` class holding the user table;
  - each method is proved against a function that specifies it;
  - review and title creation on the database value;
  - routing of the title viewset.
- `AdminImport` (reviews/admin.py):
  - the upload pages as methods of an `AdminStore` class;
  - the per-line loop as a generic method proved against a left-recursive `Run` function;
  - the laws of `update_or_create` without defaults, from which idempotence and the absence of rollback follow.
- `ImportCommand` (reviews/management/commands/import_csv.py):
  - argument checking;
  - `csv.DictReader` semantics;
  - the INSERT statement text;
  - the read loops, as methods of a `Connection` class that logs the writes it is handed.

Inputs from the outside world are parameters:

- the clock (`now`);
- what `\w` admits (`isWord`);
- what an email address is (`isEmail`);
- the token check (`checkToken`);
- the files (a map from path to lines of cells);
- the model registry (a map from lower-case model name to field names);
- the next primary key (`newKey`, and `nextId` in `UserStore`).

The database is taken to be PostgreSQL: it enforces the `max_length` of every character column, the 32-bit range of an `IntegerField` such as `year`, and the 64-bit range of a key. A value outside these is refused with a DataError, and the REST serializers copy the integer range from the model field.

Behaviours of the code that are easy to get wrong:

- **The admin upload is not an upsert by id.** `update_or_create` is called with every column as a lookup value and no `defaults`. A line whose exact row already exists is a no-op. Any other line is an INSERT, which fails on an existing id. This is `ApplyNamedRow` and `ApplyTitleRow`.
- **The token exchange has two distinct failures.** An unknown username gets 404; a wrong code gets 400 with a fixed message. See `Views.UserStore.CreateToken`.
- **A rejected header still leaves a record.** The import record is saved before the header check, so it survives a header mismatch. See `AdminStore.UploadNamedCsv` and `UploadTitleCsv`, where `imports` grows.
- **Length limits differ between serializer and column.** The signup and profile email fields admit 254 characters, but the column holds 150. A longer email is refused by the database with an error the view does not catch (`Views.SignUpLongEmailIsServerError`).
- **The profile route does not check "me" itself.** It has no "me" check, so the database's `name_not_me` constraint refuses it, again uncaught (`ProfileServerError`).

## Model

| member | source | states |
|---|---|---|
| Users.ParseRole | api_yamdb/users/models.py:5-12 | exactly the three stored role names are accepted, each maps back to its own name, and every role's name parses to that role |
| Users.NewUser | api_yamdb/users/models.py:27-31 | a user created from a username and an email gets the default role `user`, is not a superuser, and is neither admin nor moderator |
| Users.CapabilityTable | api_yamdb/users/models.py:33-39 | moderator iff role is `moderator`; admin iff role is `admin` or superuser; a superuser is admin whatever its role; a plain non-superuser user is neither |
| Permissions.AdminOrReadOnlyTable | api_yamdb/api/permissions.py:4-15 | safe methods granted to everyone; unsafe granted iff an authenticated admin; never raises; the object check equals the collection check |
| Permissions.AuthorCollectionTable | api_yamdb/api/permissions.py:21-23 | collection level: granted iff safe method or authenticated |
| Permissions.AuthorObjectTable | api_yamdb/api/permissions.py:25-29 | on an authored object, unsafe granted iff author, moderator or admin; the object check alone would raise for the anonymous user, but the combined decision never raises because the collection check denies first |
| Permissions.AdminOnlyTable | api_yamdb/api/permissions.py:32-39 | granted iff authenticated admin, for every method including GET and every object (the inherited object check grants) |
| Permissions.GrantSurvivesPromotion | api_yamdb/api/permissions.py:4-39 | whatever any policy grants an actor it still grants after the actor's role becomes admin |
| Permissions.AdminGrantedEverything | api_yamdb/api/permissions.py:4-39 | an admin is granted every request under every policy, on collections and on authored objects |
| Validators.ValidateYearContract | api_yamdb/reviews/validators.py:5-11 | rejects exactly the years after `now`; `now` itself and all earlier years pass; the message starts with the fixed prefix and the rest reads back as `now` |
| Catalog.DeleteCategory | api_yamdb/reviews/models.py:90-97 | the category goes; every title stays and loses its category only if it was this one; every other table is unchanged |
| Catalog.DeleteGenre | api_yamdb/reviews/models.py:83-89 | the genre goes and is removed from every title's genre set; nothing else changes |
| Catalog.DeleteReview | api_yamdb/reviews/models.py:166-170 | the review goes with exactly the comments whose review no longer exists; other tables unchanged |
| Catalog.DeleteTitle | api_yamdb/reviews/models.py:122-126 | the title, exactly its reviews, and exactly the comments on those reviews go; everything else stays unchanged |
| Catalog.DeleteUser | api_yamdb/reviews/models.py:117-121 | the user, exactly their reviews and comments, and the comments on their reviews go |
| Catalog.DeleteCategoryConsistent | api_yamdb/reviews/models.py:90-97 | deleting a category keeps every database constraint and every score in range |
| Catalog.DeleteGenreConsistent | api_yamdb/reviews/models.py:83-89 | deleting a genre keeps every database constraint and every score in range |
| Catalog.DeleteReviewConsistent | api_yamdb/reviews/models.py:166-170 | deleting a review keeps the constraints, and a comment survives iff it is not on that review |
| Catalog.DeleteTitleConsistent | api_yamdb/reviews/models.py:122-126 | deleting a title keeps the constraints, and no surviving comment is on a review of that title |
| Catalog.DeleteUserConsistent | api_yamdb/reviews/models.py:117-121 | deleting a user keeps every database constraint and every score in range |
| Serializers.TitleYearAgreesWithModel | api_yamdb/api/serializers.py:60-68 | the serializer's year check refuses exactly what the model validator refuses and returns an accepted year unchanged |
| Serializers.ValidateReviewContract | api_yamdb/api/serializers.py:92-102 | a POST is refused iff the author already reviewed the title; no other method is ever refused |
| Serializers.ValidateUsernameContract | api_yamdb/api/serializers.py:188-195 | refused iff the username is exactly `me`; `Me` and `ME` pass; an accepted value comes back unchanged |
| Serializers.SignUpRule | api_yamdb/api/serializers.py:171-217 | accepted iff the fields are valid, the username is not `me`, and either the exact pair exists or no username or email matches up to case; refused with the conflict message iff valid fields, no exact pair, and a case-insensitive match |
| Serializers.SignUpCaseAsymmetry | api_yamdb/api/serializers.py:197-217 | with `Bob`/`bob@x` stored, `bob`/`bob@x` is refused while `Bob`/`bob@x` passes |
| Serializers.RoleIsReadOnly | api_yamdb/api/serializers.py:163-168 | payloads differing only in `role` produce the same errors and the same saved record |
| Views.UserWriteError | api_yamdb/users/models.py:18-47 | a write the database accepts stores a row meeting the `name_not_me` check and the column lengths |
| Views.AcceptedWriteKeepsTableValid | api_yamdb/users/models.py:18-47 | a write the database accepts keeps usernames and emails unique and every row within its constraints |
| Views.SignUpEffect | api_yamdb/api/views.py:125-149 | signup adds no user when the exact pair is stored, otherwise at most the one new default user; a refused signup changes nothing; success leaves the pair stored |
| Views.SignUpNeverIntegrityError | api_yamdb/api/views.py:131-139 | on a valid user table the IntegrityError handler is unreachable after validation |
| Views.SignUpLongEmailIsServerError | api_yamdb/api/serializers.py:175-178 | accepted data with a new email over 150 characters ends in an uncaught database error and stores nothing |
| Views.SignUpIdempotent | api_yamdb/api/views.py:127-133 | repeating a successful signup succeeds again and adds no second user |
| Views.UserStore.CreateUser | api_yamdb/api/views.py:125-149 | the new table and the response are those of `SignUp`; the table stays valid and the IntegrityError response never occurs |
| Views.UserStore.CreateToken | api_yamdb/api/views.py:152-174 | 400 iff the fields are invalid; 404 iff no user has the username; a token iff that user's code checks; a token is for the user with that username; a bad code gets the fixed message |
| Views.UserStore.EditOwnProfile | api_yamdb/api/views.py:189-211 | the new table and the response are those of `ProfileEdit`, and the table stays valid |
| Views.ProfileEditKeepsRoles | api_yamdb/api/views.py:196-211 | no role ever changes and no other user's row is touched; only a successful PATCH changes the caller's row; GET returns it unchanged; other methods get 405 |
| Views.ProfileEditKeepsTableValid | api_yamdb/api/views.py:202-209 | a PATCH of the own profile keeps the user table valid |
| Views.PatchingRoleToAdminIsIgnored | api_yamdb/api/views.py:202-209 | a plain user who sends `role: admin` gets 200 and the unchanged record |
| Views.CreateReviewKeepsInvariants | api_yamdb/api/views.py:92-98 | creating a review keeps the constraints (one review per author and title included) and the score range; a second review is refused and not stored; anonymous is denied |
| Views.CreateTitleKeepsInvariants | api_yamdb/api/serializers.py:44-68 | a title created through the API has year at most `now` and within the 32-bit column, only an admin creates one, and the database stays consistent |
| Views.TitleRouteTable | api_yamdb/api/views.py:63-74 | PUT, HEAD and OPTIONS never reach the title handlers; create, partial update and delete use the write serializer, the reads use the read serializer |
| AdminImport.NamedLawful | api_yamdb/reviews/admin.py:49-53 | a written category or genre line only adds to the table and is then stored; a stored line is a no-op and stays stored in any larger table |
| AdminImport.TitleLawful | api_yamdb/reviews/admin.py:146-152 | the same laws for title lines |
| AdminImport.NamedRowKeepsTableValid | api_yamdb/reviews/admin.py:49-53 | a written line keeps slugs unique and lengths within their columns |
| AdminImport.TitleRowKeepsReferences | api_yamdb/reviews/admin.py:146-152 | a written title line keeps every category reference resolvable and names within length |
| AdminImport.ImportRows | api_yamdb/reviews/admin.py:47-53 | the loop's result is `Run`: lines applied in file order, stopping at the first refusal |
| AdminImport.FailureIsFinal | api_yamdb/reviews/admin.py:47-53 | once a line fails, the later lines are never applied |
| AdminImport.FailureKeepsEarlierRows | api_yamdb/reviews/admin.py:47-53 | no rollback: after a failure at line k, the table is exactly what lines 0..k-1 wrote, and line k is the refused one |
| AdminImport.RunExtends | api_yamdb/reviews/admin.py:47-53 | applying lines never removes or changes a stored row |
| AdminImport.DoneStoresEveryLine | api_yamdb/reviews/admin.py:47-56 | after a run with no failure every line is stored |
| AdminImport.StoredLinesAreNoOps | api_yamdb/reviews/admin.py:49-53 | lines that are all stored change nothing |
| AdminImport.RunIdempotent | api_yamdb/reviews/admin.py:47-53 | running the same lines again on the result gives the same table and the same failure, if any |
| AdminImport.RunPreserves | api_yamdb/reviews/admin.py:47-53 | a table property kept by every written line is kept by the run |
| AdminImport.UploadIdempotent | api_yamdb/reviews/admin.py:37-58 | uploading the same file twice gives the same answer and table as uploading it once |
| AdminImport.UploadOutcomes | api_yamdb/reviews/admin.py:37-58 | the success message iff the header matches and no line failed, and then every data line is stored; the form is shown again iff the file is empty (the form's file field refuses an empty file); a wrong header or empty file changes nothing; a failure keeps the earlier lines' writes |
| AdminImport.ImportStoresFutureYear | api_yamdb/reviews/admin.py:144-152 | a title line with a year after `now`, within the column, is imported and stored as it is |
| AdminImport.ImportRefusesYearPastColumn | api_yamdb/reviews/admin.py:144-152 | a title line whose year is one past the 32-bit column fails with a DataError at the first data line, and the table is unchanged |
| AdminImport.AdminStore.UploadNamedCsv | api_yamdb/reviews/admin.py:37-58 | not a POST, no file or an empty file: the form page, nothing changes; otherwise the import record is appended first and the target table becomes the one `Upload` gives, the other unchanged; the tables stay valid |
| AdminImport.AdminStore.UploadTitleCsv | api_yamdb/reviews/admin.py:133-157 | the same for titles, with category references kept resolvable |
| ImportCommand.PlanRules | api_yamdb/reviews/management/commands/import_csv.py:79-100 | error iff models and tables are both or neither given, or the counts differ with paths given; nothing to do iff paths are absent; otherwise the pairs in the order given |
| ImportCommand.CommandRules | api_yamdb/reviews/management/commands/import_csv.py:79-100 | a refused command and a command without paths write nothing; a failing job lies within the paths given |
| ImportCommand.RowParamsInOrder | api_yamdb/reviews/management/commands/import_csv.py:44-47 | with distinct column names the parameters are the line's cells in header order, `None` past the end of a short line |
| ImportCommand.RepeatedNameTakesLaterColumn | api_yamdb/reviews/management/commands/import_csv.py:40-47 | a repeated column name hands both parameters the later cell |
| ImportCommand.PlaceholdersMatchParams | api_yamdb/reviews/management/commands/import_csv.py:41-47 | with no `%` in the table or column names, the statement has exactly as many `%` as the row has parameters |
| ImportCommand.InsertsInFileOrder | api_yamdb/reviews/management/commands/import_csv.py:44-48 | one INSERT per data line, in file order, each with that line's parameters |
| ImportCommand.CollectItems | api_yamdb/reviews/management/commands/import_csv.py:28-30 | the loop builds `ModelItems`: one item per data line, or the index of the first line that cannot build one |
| ImportCommand.ItemsFollowLines | api_yamdb/reviews/management/commands/import_csv.py:28-30 | item i is the one built from data line i |
| ImportCommand.ModelWritesRules | api_yamdb/reviews/management/commands/import_csv.py:18-33 | an unknown model or a file with no data lines writes nothing; otherwise one bulk create of an item per data line, or a failure naming the bad line |
| ImportCommand.RunJobsFailure | api_yamdb/reviews/management/commands/import_csv.py:91-100 | the jobs before a failing one wrote their share, the failing one wrote nothing, later ones never ran |
| ImportCommand.Connection.ReadTable | api_yamdb/reviews/management/commands/import_csv.py:36-48 | an empty file fails with nothing written; otherwise the log grows by exactly the INSERTs of the data lines |
| ImportCommand.Connection.ReadModel | api_yamdb/reviews/management/commands/import_csv.py:18-33 | the log grows by exactly `ModelWrites`, or by nothing on a failure |
| ImportCommand.Connection.ReadJob | api_yamdb/reviews/management/commands/import_csv.py:91-100 | an unknown model name writes nothing before the file is looked for; otherwise a missing file fails with nothing written, and an existing one is read into a table or a model |
| ImportCommand.JobWritesRules | api_yamdb/reviews/management/commands/import_csv.py:18-27 | an unknown model writes nothing whether or not its file exists; a missing file fails a table job, and a model job iff the model is known |
| ImportCommand.UnknownModelSkipsMissingFile | api_yamdb/reviews/management/commands/import_csv.py:18-22 | `--models nosuch --paths missing.csv` finishes without writing |
| ImportCommand.Connection.ReadJobs | api_yamdb/reviews/management/commands/import_csv.py:91-100 | the loop writes exactly what `RunJobs` gives and reports its failure |
| ImportCommand.Connection.Handle | api_yamdb/reviews/management/commands/import_csv.py:79-100 | the outcome and the writes are those of `Command` |

## Left out

- The `rating` annotation (average score) of titles, filters, search, ordering and pagination: query shaping with no rule of its own.
- The confirmation mail and token generation (`make_token`, `send_mail`, `AccessToken`): outside the application. The token check is the parameter `checkToken`, and a successful signup response stands for the mail being sent.
- Whitespace trimming by text fields: not modelled, so a value counts as blank only when it is empty.
- Case folding: ASCII only. The database's `iexact` and the `model_name.lower()` of the `import_csv` command fold all of Unicode.
- Python's `int()`: only an optional sign and decimal digits are modelled. Surrounding whitespace and `_` separators are not.
- What `\w` matches and what a valid email address is: left to the parameters `isWord` and `isEmail`.
- The Review and Comment upload pages (reviews/admin.py:185-210 and 238-262): their first data line always fails, because the Review page passes a field `name` that Review does not have and the Comment page writes comment columns into Category. They are not part of this model.
- Comment creation, and updating or deleting reviews and comments through the API: beyond the permission decision, only review creation is modelled.
- Category and genre creation, and user administration through the API: only their permission policy (`IsAdminOrReadOnly`, `IsAdminOnly`) is modelled.
- `pub_date`, `date_added` and the stored upload file itself: timestamps and file storage carry no rule.
- Concurrency: every request is taken to run alone. Two simultaneous signups could reach the IntegrityError handler that `SignUpNeverIntegrityError` shows unreachable sequentially.
- Reading files and parsing CSV bytes: a file is given as a sequence of lines of cells. A missing file is modelled; encoding errors are not.
- Admin page rendering, messages and redirects: they appear only as the `UploadOutcome` values. The admin classes with upload pages are not registered with the admin site in the source (reviews/admin.py:19 and the lines like it register the default admin). The pages are modelled as written.
- Database acceptance of raw INSERTs and of `bulk_create` in `import_csv`: the `Connection` records what it is handed. A statement the database refuses would end the command and is not modelled.
- Primary-key sequences: the next key is a parameter. `UserStore.nextId` advances only when a row is inserted, while a PostgreSQL sequence also advances on a failed insert. Only the key's freshness matters here.
