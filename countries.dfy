/** CountryExercise: a fixed table of five countries, an endpoint that lists them and an
    endpoint that looks one up by id. */
module CountryExercise {
  import opened Wrappers
  import opened Text
  import opened Http

  /** A dictionary from int keys to names, as its entries in enumeration order. */
  type Table = seq<(int, string)>

  /** The `countries` dictionary. It is never modified, so it enumerates in insertion order. */
  const Countries: Table := [
    (1, "United States"),
    (2, "Canada"),
    (3, "United Kingdom"),
    (4, "India"),
    (5, "Japan")
  ]

  const NoCountry := "[No country]"
  const IdOutOfRange := "The CountryID should be between 1 and 100"

  /** The value stored under `key`, if any. */
  function Lookup(table: Table, key: int): (r: Option<string>)
    ensures r.Some? <==> exists i :: 0 <= i < |table| && table[i].0 == key
    ensures r.Some? ==> exists i :: 0 <= i < |table| && table[i] == (key, r.value)
    decreases |table|
  {
    if table == [] then None
    else if table[0].0 == key then Some(table[0].1)
    else
      var r := Lookup(table[1..], key);
      assert forall i :: 0 < i < |table| ==> table[i] == table[1..][i - 1];
      r
  }

  /** The table maps exactly the keys 1 to 5, each to its listed name. */
  lemma CountriesTable(k: int)
    ensures Lookup(Countries, k).Some? <==> 1 <= k <= 5
    ensures Lookup(Countries, 1) == Some("United States")
    ensures Lookup(Countries, 2) == Some("Canada")
    ensures Lookup(Countries, 3) == Some("United Kingdom")
    ensures Lookup(Countries, 4) == Some("India")
    ensures Lookup(Countries, 5) == Some("Japan")
  {
    // Peel the table one entry at a time.
    var t1 := Countries[1..];
    var t2 := t1[1..];
    var t3 := t2[1..];
    var t4 := t3[1..];
    assert t4 == [(5, "Japan")];
    assert Lookup(t4, k) == if k == 5 then Some("Japan") else None;
    assert t3 == [(4, "India")] + t4;
    assert Lookup(t3, k) == if k == 4 then Some("India") else Lookup(t4, k);
    assert t2 == [(3, "United Kingdom")] + t3;
    assert Lookup(t2, k) == if k == 3 then Some("United Kingdom") else Lookup(t3, k);
    assert t1 == [(2, "Canada")] + t2;
    assert Lookup(t1, k) == if k == 2 then Some("Canada") else Lookup(t2, k);
    assert Lookup(Countries, k) == if k == 1 then Some("United States") else Lookup(t1, k);
  }

  /** One line of the listing: `$"{item.Key}, {item.Value}\n"`. */
  function ListingLine(entry: (int, string)): string {
    IntToString(entry.0) + ", " + entry.1 + "\n"
  }

  /** A listing line opens with the rendered key and ", ", holds the name after that and ends with
      the newline; the text before the separator reads back as the key. */
  lemma ListingLineShape(entry: (int, string))
    ensures IntToString(entry.0) + ", " <= ListingLine(entry)
    ensures |ListingLine(entry)| == |IntToString(entry.0)| + 2 + |entry.1| + 1
    ensures ListingLine(entry)[|IntToString(entry.0)| + 2..|ListingLine(entry)| - 1] == entry.1
    ensures ListingLine(entry)[|ListingLine(entry)| - 1] == '\n'
    ensures ParseInt(ListingLine(entry)[..|IntToString(entry.0)|]) == entry.0
  {
    var key := IntToString(entry.0);
    assert ListingLine(entry)[..|key|] == key;
    ParseIntToString(entry.0);
  }

  /** The lines the listing writes for the first entries of a table. */
  function ListingLines(table: Table): seq<string>
    decreases |table|
  {
    if table == [] then [] else ListingLines(table[..|table| - 1]) + [ListingLine(table[|table| - 1])]
  }

  /** The listing has one line per entry, and line k describes entry k. */
  lemma {:induction false} ListingLineAt(table: Table, k: nat)
    requires k < |table|
    ensures |ListingLines(table)| == |table|
    ensures ListingLines(table)[k] == ListingLine(table[k])
    decreases |table|
  {
    ListingLength(table);
    if k < |table| - 1 {
      var front := table[..|table| - 1];
      ListingLineAt(front, k);
      assert front[k] == table[k];
    }
  }

  lemma {:induction false} ListingLength(table: Table)
    ensures |ListingLines(table)| == |table|
    decreases |table|
  {
    if table != [] {
      ListingLength(table[..|table| - 1]);
    }
  }

  /** Listing one more entry of a table adds that entry's line at the end. */
  lemma ListingLinesExtend(table: Table, i: nat)
    requires i < |table|
    ensures ListingLines(table[..i + 1]) == ListingLines(table[..i]) + [ListingLine(table[i])]
  {
    assert table[..i + 1][..i] == table[..i];
  }

  /** The listing of the country table, line by line: "1, United States\n" through "5, Japan\n".
      Each expected line is written as its key, the separator, the name and the newline. */
  lemma CountriesListing()
    ensures ListingLines(Countries) == [
      "1" + ", " + "United States" + "\n",
      "2" + ", " + "Canada" + "\n",
      "3" + ", " + "United Kingdom" + "\n",
      "4" + ", " + "India" + "\n",
      "5" + ", " + "Japan" + "\n"]
  {
    ListingLength(Countries);
    CountryLines();
    forall k | 0 <= k < |Countries| ensures ListingLines(Countries)[k] == ListingLine(Countries[k]) {
      ListingLineAt(Countries, k);
    }
  }

  /** The line each entry of the country table is listed as. */
  lemma CountryLines()
    ensures ListingLine(Countries[0]) == "1" + ", " + "United States" + "\n"
    ensures ListingLine(Countries[1]) == "2" + ", " + "Canada" + "\n"
    ensures ListingLine(Countries[2]) == "3" + ", " + "United Kingdom" + "\n"
    ensures ListingLine(Countries[3]) == "4" + ", " + "India" + "\n"
    ensures ListingLine(Countries[4]) == "5" + ", " + "Japan" + "\n"
  {
    assert IntToString(1) == "1" && IntToString(2) == "2" && IntToString(3) == "3";
    assert IntToString(4) == "4" && IntToString(5) == "5";
  }

  /** The "countries" endpoint: one `WriteAsync` per entry, in table order. */
  method ListCountries(response: HttpResponse)
    modifies response
    ensures response.written == old(response.written) + ListingLines(Countries)
    ensures response.statusCode == old(response.statusCode)
  {
    var i := 0;
    while i < |Countries|
      invariant 0 <= i <= |Countries|
      invariant response.written == old(response.written) + ListingLines(Countries[..i])
      invariant response.statusCode == old(response.statusCode)
    {
      response.WriteAsync(ListingLine(Countries[i]));
      ListingLinesExtend(Countries, i);
      i := i + 1;
    }
    assert Countries[..i] == Countries;
  }

  /** What an endpoint leaves in the response: a status and a body. */
  datatype EndpointResult = EndpointResult(statusCode: int, body: string)

  /** The "countries/{countryID}" endpoint for an id the route constraint has already parsed. */
  function CountryById(countryID: int): (r: EndpointResult)
    ensures r.statusCode in {200, 404, 400}
    ensures r.statusCode == 200 <==> Lookup(Countries, countryID).Some?
    ensures r.statusCode == 200 ==> Lookup(Countries, countryID) == Some(r.body)
    ensures r.statusCode == 404 <==> 6 <= countryID <= 100
  {
    CountriesTable(countryID);
    if countryID > 0 && countryID < 6 then
      EndpointResult(200, Lookup(Countries, countryID).value)
    else if countryID > 5 && countryID < 101 then
      EndpointResult(404, NoCountry)
    else
      EndpointResult(400, IdOutOfRange)
  }

  /** An id in 1..5 gives 200 and that country's name. */
  lemma KnownCountry(countryID: int)
    requires 1 <= countryID <= 5
    ensures CountryById(countryID).statusCode == 200
    ensures Lookup(Countries, countryID) == Some(CountryById(countryID).body)
  {
  }

  /** An id in 6..100 gives 404 "[No country]". */
  lemma UnknownCountry(countryID: int)
    requires 6 <= countryID <= 100
    ensures CountryById(countryID) == EndpointResult(404, NoCountry)
  {
  }

  /** An id of 0 or less, or of 101 or more, gives 400 with the range message. */
  lemma OutOfRange(countryID: int)
    requires countryID <= 0 || countryID >= 101
    ensures CountryById(countryID) == EndpointResult(400, IdOutOfRange)
  {
  }
}
