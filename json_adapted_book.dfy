/**
 * JsonAdaptedBook: the storage shadow of a Book, a record of optional strings
 * and string lists, and its decoder toModelType, which validates the record
 * in a fixed order and reports the first violation.
 */
module JsonBook {
  import opened Wrappers
  import opened Person

  type BookName = string
  type Isbn = string
  type Author = string

  /** A book: name, ISBN, authors in order, and a set of tags. */
  datatype Book = Book(bookName: BookName, isbn: Isbn, authors: seq<Author>, tags: set<Tag>)

  /**
   * The format rules of BookName, Isbn, Tag and Author (regular expressions
   * that are not part of this model).
   */
  datatype Constraints = Constraints(
    isValidBookName: string -> bool,
    isValidIsbn: string -> bool,
    isValidTagName: string -> bool,
    isValidAuthor: string -> bool)

  predicate AllValid(ok: string -> bool, xs: seq<string>) {
    forall k :: 0 <= k < |xs| ==> ok(xs[k])
  }

  /** A book the application can build: each value object passed its format rule. */
  predicate ValidBook(c: Constraints, b: Book) {
    && c.isValidBookName(b.bookName)
    && c.isValidIsbn(b.isbn)
    && AllValid(c.isValidAuthor, b.authors)
    && forall t :: t in b.tags ==> c.isValidTagName(t)
  }

  /** The IllegalValueException kinds toModelType raises. */
  datatype IllegalValue =
    | MissingField(fieldName: string)  // MISSING_FIELD_MESSAGE_FORMAT
    | BookNameConstraints              // BookName.MESSAGE_CONSTRAINTS
    | IsbnConstraints                  // Isbn.MESSAGE_CONSTRAINTS
    | TagConstraints                   // Tag.MESSAGE_CONSTRAINTS
    | AuthorConstraints                // Author.MESSAGE_CONSTRAINTS

  /** MISSING_FIELD_MESSAGE_FORMAT filled with the field's class name. */
  function MissingFieldMessage(fieldName: string): (message: string)
    ensures |message| == |fieldName| + 25
    ensures message[..7] == "Book's " && message[7..7 + |fieldName|] == fieldName
    ensures message[7 + |fieldName|..] == " field is missing!"
  {
    "Book's " + fieldName + " field is missing!"
  }

  datatype JsonAdaptedBook = JsonAdaptedBook(
    bookName: Option<string>,
    isbn: Option<string>,
    tagged: seq<string>,
    authors: seq<string>)

  /** The JSON-facing constructor: a null tag or author list is kept as an empty one. */
  function FromJson(bookName: Option<string>, isbn: Option<string>,
                    tagged: Option<seq<string>>, authors: Option<seq<string>>): (j: JsonAdaptedBook)
    ensures j.bookName == bookName && j.isbn == isbn
    ensures tagged.Some? ==> j.tagged == tagged.value
    ensures authors.Some? ==> j.authors == authors.value
    ensures tagged.None? ==> j.tagged == []
    ensures authors.None? ==> j.authors == []
  {
    JsonAdaptedBook(bookName, isbn, tagged.OrElse([]), authors.OrElse([]))
  }

  /** A null tag or author list is read exactly as an empty one. */
  lemma NullListsAreEmpty(bookName: Option<string>, isbn: Option<string>,
                          tagged: Option<seq<string>>, authors: Option<seq<string>>)
    ensures FromJson(bookName, isbn, None, authors) == FromJson(bookName, isbn, Some([]), authors)
    ensures FromJson(bookName, isbn, tagged, None) == FromJson(bookName, isbn, tagged, Some([]))
    ensures FromJson(bookName, isbn, tagged, authors).tagged == (if tagged.None? then [] else tagged.value)
    ensures FromJson(bookName, isbn, tagged, authors).authors == (if authors.None? then [] else authors.value)
  {
  }

  /** The tags of a set in some order, each once (a HashSet's iteration order is unspecified). */
  ghost function SetToSeq(s: set<Tag>): (r: seq<Tag>)
    ensures |r| == |s|
    ensures forall x :: x in r <==> x in s
    decreases |s|
  {
    if s == {} then []
    else
      var x :| x in s;
      [x] + SetToSeq(s - {x})
  }

  /** The constructor from a Book: name and ISBN as strings, tags and authors mapped one by one. */
  ghost function FromBook(source: Book): (j: JsonAdaptedBook)
    ensures j.bookName == Some(source.bookName) && j.isbn == Some(source.isbn)
    ensures j.authors == source.authors
    ensures |j.tagged| == |source.tags|
    ensures forall t :: t in j.tagged <==> t in source.tags
  {
    JsonAdaptedBook(Some(source.bookName), Some(source.isbn), SetToSeq(source.tags), source.authors)
  }

  /**
   * What toModelType computes: tags, then authors, then the name (missing,
   * then malformed), then the ISBN (missing, then malformed); the first check
   * that fails is the error.
   */
  function Decode(c: Constraints, j: JsonAdaptedBook): (r: Result<Book, IllegalValue>)
    ensures r.Success? ==> ValidBook(c, r.value)
    ensures r.Success? ==> r.value.authors == j.authors
    ensures r.Success? ==> forall t :: t in r.value.tags <==> t in j.tagged
    ensures r.Failure? && r.error.MissingField? ==> r.error.fieldName in ["BookName", "Isbn"]
  {
    if !AllValid(c.isValidTagName, j.tagged) then Failure(TagConstraints)
    else if !AllValid(c.isValidAuthor, j.authors) then Failure(AuthorConstraints)
    else if j.bookName.None? then Failure(MissingField("BookName"))
    else if !c.isValidBookName(j.bookName.value) then Failure(BookNameConstraints)
    else if j.isbn.None? then Failure(MissingField("Isbn"))
    else if !c.isValidIsbn(j.isbn.value) then Failure(IsbnConstraints)
    else Success(Book(j.bookName.value, j.isbn.value, j.authors, set t | t in j.tagged))
  }

  /** toModelType: two loops collect tags and authors, leaving at the first invalid one. */
  method ToModelType(c: Constraints, j: JsonAdaptedBook) returns (r: Result<Book, IllegalValue>)
    ensures r == Decode(c, j)
  {
    var bookTags: seq<Tag> := [];
    var i := 0;
    while i < |j.tagged|
      invariant 0 <= i <= |j.tagged|
      invariant bookTags == j.tagged[..i]
      invariant AllValid(c.isValidTagName, bookTags)
    {
      if !c.isValidTagName(j.tagged[i]) {
        return Failure(TagConstraints);
      }
      bookTags := bookTags + [j.tagged[i]];
      i := i + 1;
    }
    assert bookTags == j.tagged;

    var bookAuthors: seq<Author> := [];
    i := 0;
    while i < |j.authors|
      invariant 0 <= i <= |j.authors|
      invariant bookAuthors == j.authors[..i]
      invariant AllValid(c.isValidAuthor, bookAuthors)
    {
      if !c.isValidAuthor(j.authors[i]) {
        return Failure(AuthorConstraints);
      }
      bookAuthors := bookAuthors + [j.authors[i]];
      i := i + 1;
    }
    assert bookAuthors == j.authors;

    if j.bookName.None? {
      return Failure(MissingField("BookName"));
    }
    if !c.isValidBookName(j.bookName.value) {
      return Failure(BookNameConstraints);
    }
    var modelName := j.bookName.value;

    if j.isbn.None? {
      return Failure(MissingField("Isbn"));
    }
    if !c.isValidIsbn(j.isbn.value) {
      return Failure(IsbnConstraints);
    }
    var modelIsbn := j.isbn.value;

    var modelTags := set t | t in bookTags;
    return Success(Book(modelName, modelIsbn, bookAuthors, modelTags));
  }

  /** Round trip: decoding the adapted form of a valid book gives the book back. */
  lemma RoundTrip(c: Constraints, b: Book)
    requires ValidBook(c, b)
    ensures Decode(c, FromBook(b)) == Success(b)
  {
    var j := FromBook(b);
    forall k | 0 <= k < |j.tagged|
      ensures c.isValidTagName(j.tagged[k])
    {
      assert j.tagged[k] in b.tags;
    }
    assert (set t | t in j.tagged) == b.tags;
  }

  /** Any single invalid tag makes decoding fail, whatever else the record holds. */
  lemma InvalidTagFails(c: Constraints, j: JsonAdaptedBook, k: nat)
    requires k < |j.tagged| && !c.isValidTagName(j.tagged[k])
    ensures Decode(c, j) == Failure(TagConstraints)
  {
  }

  /** With valid tags, any single invalid author makes decoding fail with the author error. */
  lemma InvalidAuthorFails(c: Constraints, j: JsonAdaptedBook, k: nat)
    requires k < |j.authors| && !c.isValidAuthor(j.authors[k])
    ensures Decode(c, j).Failure?
    ensures AllValid(c.isValidTagName, j.tagged) ==> Decode(c, j) == Failure(AuthorConstraints)
  {
  }

  /** The name's missing and malformed cases, reported once tags and authors passed. */
  lemma BookNameErrors(c: Constraints, j: JsonAdaptedBook)
    requires AllValid(c.isValidTagName, j.tagged) && AllValid(c.isValidAuthor, j.authors)
    ensures j.bookName.None? ==>
      Decode(c, j) == Failure(MissingField("BookName"))
      && MissingFieldMessage("BookName") == "Book's BookName field is missing!"
    ensures j.bookName.Some? && !c.isValidBookName(j.bookName.value) ==>
      Decode(c, j) == Failure(BookNameConstraints)
  {
  }

  /** The ISBN's missing and malformed cases, reported once everything before it passed. */
  lemma IsbnErrors(c: Constraints, j: JsonAdaptedBook)
    requires AllValid(c.isValidTagName, j.tagged) && AllValid(c.isValidAuthor, j.authors)
    requires j.bookName.Some? && c.isValidBookName(j.bookName.value)
    ensures j.isbn.None? ==>
      Decode(c, j) == Failure(MissingField("Isbn"))
      && MissingFieldMessage("Isbn") == "Book's Isbn field is missing!"
    ensures j.isbn.Some? && !c.isValidIsbn(j.isbn.value) ==>
      Decode(c, j) == Failure(IsbnConstraints)
  {
  }

  /**
   * A decoded book keeps the authors in their order and collects the tags into
   * a set, so repeated tags collapse; and it succeeds exactly when every check
   * passes.
   */
  lemma DecodedBookShape(c: Constraints, j: JsonAdaptedBook)
    ensures Decode(c, j).Success? <==>
      && AllValid(c.isValidTagName, j.tagged) && AllValid(c.isValidAuthor, j.authors)
      && j.bookName.Some? && c.isValidBookName(j.bookName.value)
      && j.isbn.Some? && c.isValidIsbn(j.isbn.value)
    ensures Decode(c, j).Success? ==>
      var b := Decode(c, j).value;
      && b.authors == j.authors
      && (forall t :: t in b.tags <==> t in j.tagged)
      && |b.tags| <= |j.tagged|
      && ValidBook(c, b)
  {
    if Decode(c, j).Success? {
      TagSetNoLarger(j.tagged);
    }
  }

  /** Collecting a list into a set never makes it larger. */
  lemma {:induction false} TagSetNoLarger(xs: seq<Tag>)
    ensures |set t | t in xs| <= |xs|
  {
    if xs != [] {
      TagSetNoLarger(xs[1..]);
      assert (set t | t in xs) == {xs[0]} + (set t | t in xs[1..]);
    }
  }
}
