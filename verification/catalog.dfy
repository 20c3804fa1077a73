/** The domain tables of reviews/models.py: categories, genres, titles,
    reviews and comments, the constraints the database keeps on them, and
    what deleting a row does to the rows that refer to it. Each table is a
    map from primary key to row. */
module Catalog {
  import opened Text
  import opened Users

  const MIN_REVIEW_SCORE_VALUE: int := 1
  const MAX_REVIEW_SCORE_VALUE: int := 10
  /** `max_length` of the name of a category, a genre and a title. */
  const ENTRY_NAME_MAX_LENGTH: nat := 256
  /** The default `max_length` of a SlugField. */
  const SLUG_MAX_LENGTH: nat := 50

  /** The range of an IntegerField column, `year` among them, and of a
      BigAutoField key or a foreign key to one, as PostgreSQL stores them
      (`integer` and `bigint`). */
  const INTEGER_FIELD_MIN: int := -0x8000_0000
  const INTEGER_FIELD_MAX: int := 0x7fff_ffff
  const BIG_INTEGER_FIELD_MIN: int := -0x8000_0000_0000_0000
  const BIG_INTEGER_FIELD_MAX: int := 0x7fff_ffff_ffff_ffff

  predicate InIntegerRange(v: int)
  {
    INTEGER_FIELD_MIN <= v <= INTEGER_FIELD_MAX
  }

  predicate InBigIntegerRange(v: int)
  {
    BIG_INTEGER_FIELD_MIN <= v <= BIG_INTEGER_FIELD_MAX
  }

  /** A row of the Category table or of the Genre table: both have the same
      columns besides the key. */
  datatype Named = Named(name: string, slug: string)

  datatype Title = Title(
    name: string,
    year: int,
    description: string,
    genres: set<Id>,
    category: Option<Id>)

  datatype Review = Review(author: Id, title: Id, text: string, score: int)

  datatype Comment = Comment(author: Id, review: Id, text: string)

  datatype Db = Db(
    users: map<Id, User>,
    categories: map<Id, Named>,
    genres: map<Id, Named>,
    titles: map<Id, Title>,
    reviews: map<Id, Review>,
    comments: map<Id, Comment>)

  // ---------------------------------------------------------------------
  // Constraints
  // ---------------------------------------------------------------------

  predicate NamedRowValid(n: Named)
  {
    |n.name| <= ENTRY_NAME_MAX_LENGTH && |n.slug| <= SLUG_MAX_LENGTH
  }

  /** `slug` is `unique=True` in both the Category and the Genre table. */
  predicate UniqueSlugs(t: map<Id, Named>)
  {
    forall i, j :: i in t && j in t && i != j ==> t[i].slug != t[j].slug
  }

  predicate NamedTableValid(t: map<Id, Named>)
  {
    UniqueSlugs(t) && forall i :: i in t ==> NamedRowValid(t[i])
  }

  /** The `unique_review` constraint: one review per (author, title). */
  predicate UniqueReviews(reviews: map<Id, Review>)
  {
    forall i, j :: i in reviews && j in reviews && i != j ==>
      reviews[i].author != reviews[j].author || reviews[i].title != reviews[j].title
  }

  predicate ScoreInRange(score: int)
  {
    MIN_REVIEW_SCORE_VALUE <= score <= MAX_REVIEW_SCORE_VALUE
  }

  /** Every foreign key names a row that exists. */
  predicate ReferencesResolve(db: Db)
  {
    && (forall t :: t in db.titles ==>
          db.titles[t].genres <= db.genres.Keys &&
          (db.titles[t].category.Some? ==> db.titles[t].category.value in db.categories))
    && (forall r :: r in db.reviews ==>
          db.reviews[r].author in db.users && db.reviews[r].title in db.titles)
    && (forall c :: c in db.comments ==>
          db.comments[c].author in db.users && db.comments[c].review in db.reviews)
  }

  /** What the database itself enforces: keys, unique columns, column
      lengths, the 32-bit range of the year, the non-negative score of a PositiveIntegerField and every
      foreign key. */
  predicate Consistent(db: Db)
  {
    && UserTableValid(db.users)
    && NamedTableValid(db.categories)
    && NamedTableValid(db.genres)
    && (forall t :: t in db.titles ==>
          |db.titles[t].name| <= ENTRY_NAME_MAX_LENGTH && InIntegerRange(db.titles[t].year))
    && UniqueReviews(db.reviews)
    && (forall r :: r in db.reviews ==> db.reviews[r].score >= 0)
    && ReferencesResolve(db)
  }

  /** The score validators (1 to 10), which every review written through the
      API has passed; the database itself only keeps the score non-negative. */
  predicate ScoresInRange(db: Db)
  {
    forall r :: r in db.reviews ==> ScoreInRange(db.reviews[r].score)
  }

  // ---------------------------------------------------------------------
  // Deletion
  // ---------------------------------------------------------------------

  /** Deleting a category (`on_delete=SET_NULL`): the category goes, every
      title keeps its row and only loses its category if it was this one. */
  function DeleteCategory(db: Db, id: Id): (r: Db)
    ensures r.categories == db.categories - {id}
    ensures r.titles.Keys == db.titles.Keys
    ensures forall t :: t in r.titles ==>
      r.titles[t].category != Some(id) &&
      r.titles[t].(category := db.titles[t].category) == db.titles[t] &&
      (db.titles[t].category != Some(id) ==> r.titles[t] == db.titles[t])
    ensures r.users == db.users && r.genres == db.genres
    ensures r.reviews == db.reviews && r.comments == db.comments
  {
    db.(categories := db.categories - {id},
        titles := map t | t in db.titles ::
          if db.titles[t].category == Some(id) then db.titles[t].(category := None)
          else db.titles[t])
  }

  /** Deleting a genre removes it from every title's genre set (the rows of
      the many-to-many link table go with it) and nothing else. */
  function DeleteGenre(db: Db, id: Id): (r: Db)
    ensures r.genres == db.genres - {id}
    ensures r.titles.Keys == db.titles.Keys
    ensures forall t :: t in r.titles ==>
      r.titles[t].genres == db.titles[t].genres - {id} &&
      r.titles[t].(genres := db.titles[t].genres) == db.titles[t]
    ensures r.users == db.users && r.categories == db.categories
    ensures r.reviews == db.reviews && r.comments == db.comments
  {
    db.(genres := db.genres - {id},
        titles := map t | t in db.titles :: db.titles[t].(genres := db.titles[t].genres - {id}))
  }

  /** The comments that survive when only the reviews in `kept` remain. */
  function CommentsOn(comments: map<Id, Comment>, kept: set<Id>): (r: map<Id, Comment>)
    ensures forall c :: c in r <==> c in comments && comments[c].review in kept
    ensures forall c :: c in r ==> r[c] == comments[c]
  {
    map c | c in comments && comments[c].review in kept :: comments[c]
  }

  /** Deleting a review (`on_delete=CASCADE` from Comment.review): the review
      and exactly the comments on it go. */
  function DeleteReview(db: Db, id: Id): (r: Db)
    ensures r.reviews == db.reviews - {id}
    ensures forall c :: c in r.comments <==> c in db.comments && db.comments[c].review in r.reviews
    ensures forall c :: c in r.comments ==> r.comments[c] == db.comments[c]
    ensures r.users == db.users && r.categories == db.categories
    ensures r.genres == db.genres && r.titles == db.titles
  {
    var reviews := db.reviews - {id};
    db.(reviews := reviews, comments := CommentsOn(db.comments, reviews.Keys))
  }

  /** Deleting a title (`on_delete=CASCADE` from Review.title): the title, its
      reviews, and the comments on those reviews go; every other row stays. */
  function DeleteTitle(db: Db, id: Id): (r: Db)
    ensures r.titles == db.titles - {id}
    ensures forall v :: v in r.reviews <==> v in db.reviews && db.reviews[v].title != id
    ensures forall v :: v in r.reviews ==> r.reviews[v] == db.reviews[v]
    ensures forall c :: c in r.comments <==> c in db.comments && db.comments[c].review in r.reviews
    ensures forall c :: c in r.comments ==> r.comments[c] == db.comments[c]
    ensures r.users == db.users && r.categories == db.categories && r.genres == db.genres
  {
    var reviews := map v | v in db.reviews && db.reviews[v].title != id :: db.reviews[v];
    db.(titles := db.titles - {id},
        reviews := reviews,
        comments := CommentsOn(db.comments, reviews.Keys))
  }

  /** Deleting a user (`on_delete=CASCADE` from Review.author and
      Comment.author): the user, every review and comment they wrote, and
      every comment on one of their reviews go; every other row stays. */
  function DeleteUser(db: Db, id: Id): (r: Db)
    ensures r.users == db.users - {id}
    ensures forall v :: v in r.reviews <==> v in db.reviews && db.reviews[v].author != id
    ensures forall v :: v in r.reviews ==> r.reviews[v] == db.reviews[v]
    ensures forall c :: c in r.comments <==>
      c in db.comments && db.comments[c].author != id && db.comments[c].review in r.reviews
    ensures forall c :: c in r.comments ==> r.comments[c] == db.comments[c]
    ensures r.categories == db.categories && r.genres == db.genres && r.titles == db.titles
  {
    var reviews := map v | v in db.reviews && db.reviews[v].author != id :: db.reviews[v];
    db.(users := db.users - {id},
        reviews := reviews,
        comments := map c | c in db.comments && db.comments[c].author != id
                              && db.comments[c].review in reviews :: db.comments[c])
  }

  // ---------------------------------------------------------------------
  // Deletion keeps the database consistent
  // ---------------------------------------------------------------------

  lemma DeleteCategoryConsistent(db: Db, id: Id)
    requires Consistent(db) && ScoresInRange(db)
    ensures Consistent(DeleteCategory(db, id)) && ScoresInRange(DeleteCategory(db, id))
  {
  }

  lemma DeleteGenreConsistent(db: Db, id: Id)
    requires Consistent(db) && ScoresInRange(db)
    ensures Consistent(DeleteGenre(db, id)) && ScoresInRange(DeleteGenre(db, id))
  {
  }

  lemma DeleteReviewConsistent(db: Db, id: Id)
    requires Consistent(db) && ScoresInRange(db)
    ensures Consistent(DeleteReview(db, id)) && ScoresInRange(DeleteReview(db, id))
    ensures forall c :: c in db.comments ==>
      (c in DeleteReview(db, id).comments <==> db.comments[c].review != id)
  {
  }

  lemma DeleteTitleConsistent(db: Db, id: Id)
    requires Consistent(db) && ScoresInRange(db)
    ensures Consistent(DeleteTitle(db, id)) && ScoresInRange(DeleteTitle(db, id))
    ensures forall c :: c in DeleteTitle(db, id).comments ==>
      DeleteTitle(db, id).reviews[DeleteTitle(db, id).comments[c].review].title != id
  {
  }

  lemma DeleteUserConsistent(db: Db, id: Id)
    requires Consistent(db) && ScoresInRange(db)
    ensures Consistent(DeleteUser(db, id)) && ScoresInRange(DeleteUser(db, id))
  {
  }
}
