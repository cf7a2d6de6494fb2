/**
 * The book register of test.py: the Library of BiblioDesk.py with its list
 * loaded from a JSON file when the object is made and written back after
 * every registration, and a numbered text listing of the register.
 *
 * Records come from the file as JSON objects, so a record is a dictionary
 * from keys to text and may lack a key; reading a missing key is Python's
 * KeyError, modelled as an error result.
 */
module StoredCatalog {
  import opened Results
  import opened Numbers

  /** One record of books_titles: a JSON object with text values. */
  type Record = map<string, string>

  /** The error a dictionary lookup raises. */
  datatype Failure = KeyError(key: string)

  /** The dictionary add_book writes: {'title', 'ticket', 'dt'}. */
  function NewRecord(title: string, ticket: string, now: string): (rec: Record)
    ensures rec.Keys == {"title", "ticket", "dt"}
    ensures rec["title"] == title && rec["ticket"] == ticket && rec["dt"] == now
  {
    map["title" := title, "ticket" := ticket, "dt" := now]
  }

  /** book[key]. */
  function Field(rec: Record, key: string): (r: Result<string, Failure>)
    ensures r.Ok? <==> key in rec
    ensures r.Ok? ==> r.value == rec[key]
    ensures r.Err? ==> r.error == KeyError(key)
  {
    if key in rec then Ok(rec[key]) else Err(KeyError(key))
  }

  /** Every record has a title. */
  predicate Titled(recs: seq<Record>)
  {
    forall i :: 0 <= i < |recs| ==> "title" in recs[i]
  }

  /** Some record carries this title. */
  predicate Listed(recs: seq<Record>, title: string)
  {
    exists i :: 0 <= i < |recs| && "title" in recs[i] && recs[i]["title"] == title
  }

  /** No two records carry the same title. */
  predicate DistinctTitles(recs: seq<Record>)
    requires Titled(recs)
  {
    forall i, j :: 0 <= i < j < |recs| ==> recs[i]["title"] != recs[j]["title"]
  }

  /**
   * any(book["title"] == title for book in recs): the records are read in
   * order and the scan stops at the first match, so a record without a title
   * raises KeyError only when no earlier record matched.
   */
  function AnyTitle(recs: seq<Record>, title: string): (r: Result<bool, Failure>)
    ensures Titled(recs) ==> r == Ok(Listed(recs, title))
    ensures r.Ok? ==> (r.value <==> Listed(recs, title))
    ensures r == Ok(false) ==> Titled(recs)
    ensures r.Err? ==> r.error == KeyError("title") && !Titled(recs)
  {
    if recs == [] then Ok(false)
    else if "title" !in recs[0] then Err(KeyError("title"))
    else if recs[0]["title"] == title then Ok(true)
    else
      ListedCons(recs, title);
      AnyTitle(recs[1..], title)
  }

  /** A title is listed when the first record carries it or the rest lists it. */
  lemma ListedCons(recs: seq<Record>, title: string)
    requires recs != []
    ensures Listed(recs, title)
      <==> ("title" in recs[0] && recs[0]["title"] == title) || Listed(recs[1..], title)
    ensures Titled(recs) <==> "title" in recs[0] && Titled(recs[1..])
  {
    assert forall i :: 1 <= i < |recs| ==> recs[i] == recs[1..][i - 1];
    if Listed(recs[1..], title) {
      var i :| 0 <= i < |recs[1..]| && "title" in recs[1..][i] && recs[1..][i]["title"] == title;
      assert recs[i + 1] == recs[1..][i];
    }
  }

  /**
   * The list after add_book(title, ticket) at the moment `now`: the lookup
   * error of the title scan, the same list when the title is present, or
   * the list with one new record at the end.
   */
  function Added(recs: seq<Record>, title: string, ticket: string, now: string): (r: Result<seq<Record>, Failure>)
    ensures Titled(recs) ==> r.Ok?
    ensures r.Ok? ==> |recs| <= |r.value| <= |recs| + 1 && r.value[..|recs|] == recs
    ensures r.Ok? ==> (|r.value| == |recs| + 1 <==> !Listed(recs, title))
    ensures r.Ok? && |r.value| == |recs| + 1 ==> r.value[|recs|] == NewRecord(title, ticket, now)
    ensures r.Err? ==> r.error == KeyError("title")
  {
    match AnyTitle(recs, title)
    case Err(e) => Err(e)
    case Ok(present) => if present then Ok(recs) else Ok(recs + [NewRecord(title, ticket, now)])
  }

  /** Distinct titles stay distinct: a title already registered is never added again. */
  lemma AddedKeepsDistinct(recs: seq<Record>, title: string, ticket: string, now: string)
    requires Titled(recs) && DistinctTitles(recs)
    ensures var r := Added(recs, title, ticket, now);
      r.Ok? && Titled(r.value) && DistinctTitles(r.value)
  {
    var r := Added(recs, title, ticket, now).value;
    if |r| == |recs| + 1 {
      assert forall i :: 0 <= i < |recs| ==> r[i] == recs[i];
      assert r[|recs|]["title"] == title;
    }
  }

  // ---------------------------------------------------------------------
  // all_books(formatted=True)

  /** The line f"{n}. {title} (билет: {ticket}, добавлена: {added})". */
  function Entry(n: nat, title: string, ticket: string, added: string): string
  {
    ShowNat(n) + ". " + title + " (билет: " + ticket + ", добавлена: " + added + ")"
  }

  /**
   * The line for the n-th record, reading the title and then the two keys
   * `ticketKey` and `dateKey`; the first key missing raises.
   */
  function Line(n: nat, rec: Record, ticketKey: string, dateKey: string): (r: Result<string, Failure>)
    ensures r.Ok? <==> "title" in rec && ticketKey in rec && dateKey in rec
    ensures r.Ok? ==> r.value == Entry(n, rec["title"], rec[ticketKey], rec[dateKey])
    ensures "title" in rec && ticketKey !in rec ==> r == Err(KeyError(ticketKey))
  {
    match Field(rec, "title")
    case Err(e) => Err(e)
    case Ok(title) =>
      match Field(rec, ticketKey)
      case Err(e) => Err(e)
      case Ok(ticket) =>
        match Field(rec, dateKey)
        case Err(e) => Err(e)
        case Ok(added) => Ok(Entry(n, title, ticket, added))
  }

  /** The numbered lines of all records, in order; the first failing record's error otherwise. */
  function Lines(recs: seq<Record>, ticketKey: string, dateKey: string): (r: Result<seq<string>, Failure>)
    ensures r.Ok? <==> forall i :: 0 <= i < |recs| ==> Line(i + 1, recs[i], ticketKey, dateKey).Ok?
    ensures r.Ok? ==> (|r.value| == |recs|
      && forall i :: 0 <= i < |recs| ==> Line(i + 1, recs[i], ticketKey, dateKey) == Ok(r.value[i]))
    ensures r.Err? ==> exists i :: 0 <= i < |recs| && Line(i + 1, recs[i], ticketKey, dateKey) == Err(r.error)
  {
    if recs == [] then Ok([])
    else
      var n := |recs| - 1;
      assert forall i :: 0 <= i < n ==> recs[..n][i] == recs[i];
      match Lines(recs[..n], ticketKey, dateKey)
      case Err(e) => Err(e)
      case Ok(ls) =>
        match Line(n + 1, recs[n], ticketKey, dateKey)
        case Err(e) => Err(e)
        case Ok(l) => Ok(ls + [l])
  }

  /** "\n".join(lines). */
  function Join(lines: seq<string>): (s: string)
    ensures lines == [] ==> s == []
    ensures lines != [] ==> |lines[|lines| - 1]| <= |s| && s[|s| - |lines[|lines| - 1]|..] == lines[|lines| - 1]
    ensures |lines| > 1 ==> s == Join(lines[..|lines| - 1]) + "\n" + lines[|lines| - 1]
  {
    if lines == [] then []
    else if |lines| == 1 then lines[0]
    else Join(lines[..|lines| - 1]) + "\n" + lines[|lines| - 1]
  }

  /** The text all_books(formatted=True) returns when its keys are `ticketKey` and `dateKey`. */
  function Listing(recs: seq<Record>, ticketKey: string, dateKey: string): Result<string, Failure>
  {
    match Lines(recs, ticketKey, dateKey)
    case Err(e) => Err(e)
    case Ok(ls) => Ok(Join(ls))
  }

  /** The keys the listing reads, as written: 'ticket_num' and 'date_added'. */
  function ListingAsWritten(recs: seq<Record>): Result<string, Failure>
  {
    Listing(recs, "ticket_num", "date_added")
  }

  /** The keys add_book writes, which the listing evidently means: 'ticket' and 'dt'. */
  function ListingCorrected(recs: seq<Record>): Result<string, Failure>
  {
    Listing(recs, "ticket", "dt")
  }

  /** Every record is one add_book wrote, or at least has its three keys. */
  predicate Complete(recs: seq<Record>)
  {
    forall i :: 0 <= i < |recs| ==> "title" in recs[i] && "ticket" in recs[i] && "dt" in recs[i]
  }

  /** add_book keeps the register complete. */
  lemma AddedKeepsComplete(recs: seq<Record>, title: string, ticket: string, now: string)
    requires Complete(recs)
    ensures var r := Added(recs, title, ticket, now);
      r.Ok? && Complete(r.value)
  {
    var r := Added(recs, title, ticket, now).value;
    assert forall i :: 0 <= i < |recs| ==> r[i] == recs[i];
  }

  /**
   * As written, the listing fails on any record add_book wrote: such a
   * record has 'ticket' but no 'ticket_num', so the KeyError is raised for
   * 'ticket_num' as soon as the listing reaches it.
   */
  lemma AsWrittenFailsOnAddedBook(recs: seq<Record>, title: string, ticket: string, now: string)
    requires Titled(recs) && !Listed(recs, title)
    ensures var r := Added(recs, title, ticket, now);
      r.Ok? && ListingAsWritten(r.value).Err?
  {
    var r := Added(recs, title, ticket, now).value;
    var rec := r[|recs|];
    assert rec == NewRecord(title, ticket, now);
    assert "ticket_num" !in rec;
    assert !Line(|recs| + 1, rec, "ticket_num", "date_added").Ok?;
  }

  /** The smallest case: registering one book in an empty file and listing it raises KeyError('ticket_num'). */
  lemma AsWrittenFirstBook(title: string, ticket: string, now: string)
    ensures Added([], title, ticket, now) == Ok([NewRecord(title, ticket, now)])
    ensures ListingAsWritten([NewRecord(title, ticket, now)]) == Err(KeyError("ticket_num"))
  {
    var rec := NewRecord(title, ticket, now);
    assert "ticket_num" !in rec;
    assert Line(1, rec, "ticket_num", "date_added") == Err(KeyError("ticket_num"));
    assert [rec][..0] == [];
  }

  /**
   * Corrected, the listing never fails on a register add_book filled: it is
   * one numbered line per record, in order, "\n" between lines and none after
   * the last.
   */
  lemma CorrectedListsEveryBook(recs: seq<Record>)
    requires Complete(recs)
    ensures ListingCorrected(recs).Ok?
    ensures var ls := Lines(recs, "ticket", "dt");
      ls.Ok? && |ls.value| == |recs|
      && (forall i :: 0 <= i < |recs| ==>
            ls.value[i] == Entry(i + 1, recs[i]["title"], recs[i]["ticket"], recs[i]["dt"]))
      && ListingCorrected(recs) == Ok(Join(ls.value))
  {
    assert forall i :: 0 <= i < |recs| ==> Line(i + 1, recs[i], "ticket", "dt").Ok?;
  }

  /** The listing of an empty register is the empty string. */
  lemma CorrectedEmpty()
    ensures ListingCorrected([]) == Ok("")
  {
  }

  // ---------------------------------------------------------------------
  // The object

  /** test.py's Library. */
  class Library {
    /** books_titles: the records in file order, then in the order they were added. */
    var books: seq<Record>
    /** What the JSON file holds: None while it does not exist. */
    ghost var saved: Option<seq<Record>>

    /**
     * __init__ with _load_books as a hook: `stored` is what the file holds,
     * None when it does not exist, in which case the list starts empty.
     */
    constructor (stored: Option<seq<Record>>)
      ensures stored.None? ==> books == []
      ensures stored.Some? ==> books == stored.value
      ensures saved == stored
    {
      books := match stored case Some(recs) => recs case None => [];
      saved := stored;
    }

    /** сheck_book: the title scan, with its KeyError for a record lacking a title. */
    method CheckBook(title: string) returns (r: Result<bool, Failure>)
      ensures r == AnyTitle(books, title)
    {
      var i := 0;
      while i < |books|
        invariant 0 <= i <= |books|
        invariant AnyTitle(books[i..], title) == AnyTitle(books, title)
      {
        assert books[i..][1..] == books[i + 1..];
        if "title" !in books[i] {
          return Err(KeyError("title"));
        }
        if books[i]["title"] == title {
          return Ok(true);
        }
        i := i + 1;
      }
      return Ok(false);
    }

    /**
     * add_book: register the title unless present, and write the file
     * (_save_to_json) only when a record was added.  `r` is Ok(true) when a
     * record was added, Ok(false) when the title was present, or the
     * KeyError of the scan, which leaves everything as it was.
     */
    method AddBook(title: string, ticket: string, now: string) returns (r: Result<bool, Failure>)
      modifies this
      ensures Added(old(books), title, ticket, now).Ok? <==> r.Ok?
      ensures r.Ok? ==> books == Added(old(books), title, ticket, now).value
      ensures r.Err? ==> books == old(books) && r.error == KeyError("title")
      ensures r == Ok(true) <==> |books| == |old(books)| + 1
      ensures r == Ok(true) ==> saved == Some(books)
      ensures r != Ok(true) ==> saved == old(saved)
      ensures old(Titled(books) && DistinctTitles(books)) ==> Titled(books) && DistinctTitles(books)
    {
      var present := CheckBook(title);
      if present.Err? {
        return Err(present.error);
      }
      if !present.value {
        books := books + [NewRecord(title, ticket, now)];
        saved := Some(books);
      }
      r := Ok(!present.value);
      if old(Titled(books) && DistinctTitles(books)) {
        AddedKeepsDistinct(old(books), title, ticket, now);
      }
    }

    /** all_books(formatted=False): the stored records, unchanged and in order. */
    method AllBooks() returns (r: seq<Record>)
      ensures r == books
    {
      r := books;
    }

    /**
     * all_books(formatted=True) as written: the numbered lines joined by
     * "\n", reading the keys 'ticket_num' and 'date_added'.
     */
    method AllBooksFormatted() returns (r: Result<string, Failure>)
      ensures r == ListingAsWritten(books)
      ensures r.Err? ==> exists i :: 0 <= i < |books| && Line(i + 1, books[i], "ticket_num", "date_added") == Err(r.error)
    {
      r := ListWith("ticket_num", "date_added");
    }

    /**
     * all_books(formatted=True) reading the keys add_book writes: it lists
     * every register whose records all carry them.
     */
    method AllBooksListed() returns (r: Result<string, Failure>)
      ensures r == ListingCorrected(books)
      ensures Complete(books) ==> r.Ok?
    {
      r := ListWith("ticket", "dt");
      if Complete(books) {
        CorrectedListsEveryBook(books);
      }
    }

    /** The generator and the join of all_books(formatted=True), for the two keys it reads. */
    method ListWith(ticketKey: string, dateKey: string) returns (r: Result<string, Failure>)
      ensures r == Listing(books, ticketKey, dateKey)
      ensures r.Err? ==> exists i :: 0 <= i < |books| && Line(i + 1, books[i], ticketKey, dateKey) == Err(r.error)
    {
      var lines: seq<string> := [];
      var i := 0;
      while i < |books|
        invariant 0 <= i <= |books|
        invariant Lines(books[..i], ticketKey, dateKey) == Ok(lines)
      {
        assert books[..i + 1][..i] == books[..i];
        var line := Line(i + 1, books[i], ticketKey, dateKey);
        if line.Err? {
          assert books[..i + 1][i] == books[i];
          assert Lines(books[..i + 1], ticketKey, dateKey).Err?;
          PrefixErrStays(books, i + 1, ticketKey, dateKey);
          return Err(line.error);
        }
        lines := lines + [line.value];
        i := i + 1;
      }
      assert books[..i] == books;
      r := Ok(Join(lines));
    }
  }

  /** Once a prefix of the records fails to list, the whole list fails with the same error. */
  lemma {:induction false} PrefixErrStays(recs: seq<Record>, k: nat, ticketKey: string, dateKey: string)
    requires k <= |recs| && Lines(recs[..k], ticketKey, dateKey).Err?
    ensures Lines(recs, ticketKey, dateKey) == Lines(recs[..k], ticketKey, dateKey)
    decreases |recs| - k
  {
    if k < |recs| {
      assert recs[..k + 1][..k] == recs[..k];
      PrefixErrStays(recs, k + 1, ticketKey, dateKey);
    } else {
      assert recs[..k] == recs;
    }
  }
}
