/**
 * The in-memory book register of BiblioDesk.py: a Library object holding a
 * list of book records, each with the title, the reader's ticket and the
 * moment it was registered.  A title is registered at most once.
 */
module Catalog {

  /** One record of books_titles: the dict {'title', 'ticket', 'dt'}. */
  datatype Book = Book(title: string, ticket: string, dt: string)

  /** Some record in `books` carries this title: any(book["title"] == title ...). */
  predicate Listed(books: seq<Book>, title: string)
  {
    exists i :: 0 <= i < |books| && books[i].title == title
  }

  /** No two records carry the same title. */
  predicate DistinctTitles(books: seq<Book>)
  {
    forall i, j :: 0 <= i < j < |books| ==> books[i].title != books[j].title
  }

  /**
   * The list after add_book(title, ticket) at the moment `now`: one new
   * record at the end when the title is absent, the same list otherwise.
   */
  function Added(books: seq<Book>, title: string, ticket: string, now: string): (r: seq<Book>)
    ensures |books| <= |r| <= |books| + 1 && r[..|books|] == books
    ensures Listed(r, title)
    ensures |r| == |books| + 1 <==> !Listed(books, title)
    ensures |r| == |books| + 1 ==> r[|books|] == Book(title, ticket, now)
  {
    if Listed(books, title) then books
    else
      var r := books + [Book(title, ticket, now)];
      assert r[|books|].title == title;
      r
  }

  /** A registered title is never duplicated by a further add_book. */
  lemma AddedKeepsDistinct(books: seq<Book>, title: string, ticket: string, now: string)
    requires DistinctTitles(books)
    ensures DistinctTitles(Added(books, title, ticket, now))
  {
    var r := Added(books, title, ticket, now);
    if |r| == |books| + 1 {
      forall i, j | 0 <= i < j < |r| ensures r[i].title != r[j].title {
        if j == |books| {
          assert r[i] == books[i];
        } else {
          assert r[i] == books[i] && r[j] == books[j];
        }
      }
    }
  }

  /** One add_book call: title, ticket and the timestamp datetime.now() gave. */
  datatype Request = Request(title: string, ticket: string, now: string)

  /** The list after a run of add_book calls, in order, starting from `books`. */
  function Replay(books: seq<Book>, calls: seq<Request>): seq<Book>
  {
    if calls == [] then books
    else
      var c := calls[|calls| - 1];
      Added(Replay(books, calls[..|calls| - 1]), c.title, c.ticket, c.now)
  }

  /** Titles stay pairwise distinct under any run of add_book calls. */
  lemma {:induction false} ReplayKeepsDistinct(books: seq<Book>, calls: seq<Request>)
    requires DistinctTitles(books)
    ensures DistinctTitles(Replay(books, calls))
  {
    if calls != [] {
      var c := calls[|calls| - 1];
      ReplayKeepsDistinct(books, calls[..|calls| - 1]);
      AddedKeepsDistinct(Replay(books, calls[..|calls| - 1]), c.title, c.ticket, c.now);
    }
  }

  /** After add_book the titles on the list are the old ones and the added title. */
  lemma AddedTitles(books: seq<Book>, title: string, ticket: string, now: string, t: string)
    ensures Listed(Added(books, title, ticket, now), t) <==> Listed(books, t) || t == title
  {
    var r := Added(books, title, ticket, now);
    if Listed(books, t) {
      var i :| 0 <= i < |books| && books[i].title == t;
      assert r[i] == books[i];
    }
    if Listed(r, t) && t != title {
      var i :| 0 <= i < |r| && r[i].title == t;
      assert i < |books| && r[i] == books[i];
    }
  }

  /**
   * The titles on the list after a run of calls are exactly the titles it
   * started with and the titles the calls asked for.
   */
  lemma {:induction false} ReplayTitles(books: seq<Book>, calls: seq<Request>, t: string)
    ensures Listed(Replay(books, calls), t)
      <==> Listed(books, t) || exists k :: 0 <= k < |calls| && calls[k].title == t
  {
    if calls != [] {
      var n := |calls| - 1;
      var c := calls[n];
      ReplayTitles(books, calls[..n], t);
      AddedTitles(Replay(books, calls[..n]), c.title, c.ticket, c.now, t);
      if exists k :: 0 <= k < |calls| && calls[k].title == t {
        var k :| 0 <= k < |calls| && calls[k].title == t;
        if k < n {
          assert calls[..n][k] == calls[k];
        }
      }
    }
  }

  /** A register started empty holds distinct titles whatever calls it receives. */
  lemma FreshRegisterDistinct(calls: seq<Request>)
    ensures DistinctTitles(Replay([], calls))
  {
    ReplayKeepsDistinct([], calls);
  }

  /** BiblioDesk.Library. */
  class Library {
    /** books_titles: the registered records in the order they were added. */
    var books: seq<Book>

    /** The register invariant: no title is registered twice. */
    predicate Valid()
      reads this
    {
      DistinctTitles(books)
    }

    /** A new library holds no records. */
    constructor ()
      ensures books == [] && Valid()
    {
      books := [];
    }

    /** сheck_book: scan the records in order and stop at the first with this title. */
    method CheckBook(title: string) returns (found: bool)
      ensures found <==> Listed(books, title)
    {
      var i := 0;
      while i < |books|
        invariant 0 <= i <= |books|
        invariant forall k :: 0 <= k < i ==> books[k].title != title
      {
        if books[i].title == title {
          return true;
        }
        i := i + 1;
      }
      return false;
    }

    /**
     * add_book: register the title with the ticket and the moment `now`
     * unless it is registered already.  `added` tells which of the two
     * messages the source prints.
     */
    method AddBook(title: string, ticket: string, now: string) returns (added: bool)
      modifies this
      ensures books == Added(old(books), title, ticket, now)
      ensures added <==> !Listed(old(books), title)
      ensures old(Valid()) ==> Valid()
    {
      var present := CheckBook(title);
      if !present {
        books := books + [Book(title, ticket, now)];
      }
      added := !present;
      if old(Valid()) {
        AddedKeepsDistinct(old(books), title, ticket, now);
      }
    }

    /** all_books: the stored records, as they are, in insertion order. */
    method AllBooks() returns (r: seq<Book>)
      ensures r == books
    {
      r := books;
    }
  }
}
