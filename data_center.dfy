/**
  The sequential logic of the data-centre page: the first-error-wins checks of
  the two capture forms, the dynamic query builder that turns the filter
  dictionary into a SQL string with `?` placeholders and a parameter list,
  and the line-to-row splitting shared by the Word, Text, RTF and PDF
  importers.
 */
module DataCenter {
  import opened Wrappers
  import opened StrOps

  // ---------------------------------------------------------------------------
  // Capture-form validation

  /** The verdict of a capture form: insert, or show the first error. */
  datatype Capture = Accepted | Rejected(message: string)

  /** The error shown for a missing required field, as in "User ID is required.". */
  function Required(name: string): string {
    name + " is required."
  }

  /**
    The name of the first (name, value) pair, in form order, whose value is
    empty: what an `if not a: … elif not b: …` chain reports.
   */
  function FirstMissing(fields: seq<(string, string)>): (r: Option<string>)
    ensures r.None? <==> forall i :: 0 <= i < |fields| ==> fields[i].1 != ""
    ensures r.Some? ==> exists i :: && 0 <= i < |fields| && fields[i] == (r.value, "")
                                    && forall j :: 0 <= j < i ==> fields[j].1 != ""
  {
    if fields == [] then None
    else if fields[0].1 == "" then Some(fields[0].0)
    else
      var rest := FirstMissing(fields[1..]);
      assert rest.Some? ==> exists i :: && 0 < i < |fields| && fields[i] == (rest.value, "")
                                         && forall j :: 0 <= j < i ==> fields[j].1 != "" by {
        if rest.Some? {
          var i :| && 0 <= i < |fields[1..]| && fields[1..][i] == (rest.value, "")
                   && forall j :: 0 <= j < i ==> fields[1..][j].1 != "";
          assert forall j :: 0 <= j < i + 1 ==> fields[j].1 != "" by {
            forall j | 0 <= j < i + 1 ensures fields[j].1 != "" {
              if j > 0 { assert fields[j] == fields[1..][j - 1]; }
            }
          }
        }
      }
      rest
  }

  /** The subject form: a name is required. */
  function ValidateSubject(name: string): (c: Capture)
    ensures c == Accepted <==> name != ""
  {
    if name == "" then Rejected(Required("Subject Name")) else Accepted
  }

  /** The required fields of the user form, in the order the page checks them. */
  function UserFields(userId: string, first: string, last: string): seq<(string, string)> {
    [("User ID", userId), ("First Name", first), ("Last Name", last)]
  }

  /** The user form: user id, first name and last name are required, checked in that order. */
  function ValidateUser(userId: string, first: string, last: string): (c: Capture)
    ensures c == Accepted <==> userId != "" && first != "" && last != ""
  {
    if userId == "" then Rejected(Required("User ID"))
    else if first == "" then Rejected(Required("First Name"))
    else if last == "" then Rejected(Required("Last Name"))
    else Accepted
  }

  /** Both forms report exactly the first missing field of their list, and accept when none is. */
  lemma ValidationReportsFirstMissing(name: string, userId: string, first: string, last: string)
    ensures ValidateSubject(name) == match FirstMissing([("Subject Name", name)])
                                     case None => Accepted
                                     case Some(missing) => Rejected(Required(missing))
    ensures ValidateUser(userId, first, last) == match FirstMissing(UserFields(userId, first, last))
                                                 case None => Accepted
                                                 case Some(missing) => Rejected(Required(missing))
  {
    var fs := UserFields(userId, first, last);
    assert [("Subject Name", name)][1..] == [];
    assert fs[1..][1..][1..] == [];
    assert FirstMissing(fs[1..][1..]) == if last == "" then Some("Last Name") else None;
    assert FirstMissing(fs[1..]) == if first == "" then Some("First Name") else FirstMissing(fs[1..][1..]);
  }

  // ---------------------------------------------------------------------------
  // The filter dictionary

  /** A filter value: the text of an input box, or the dates of a date range (ISO strings). */
  datatype FilterValue = Text(text: string) | Dates(dates: seq<string>)

  /** One entry of the filter dictionary. */
  datatype Filter = Filter(field: string, value: FilterValue)

  /** `field.endswith("_range")`, compared character by character. */
  predicate IsRangeField(field: string) {
    var n := |field|;
    && n >= 6
    && field[n - 6] == '_' && field[n - 5] == 'r' && field[n - 4] == 'a'
    && field[n - 3] == 'n' && field[n - 2] == 'g' && field[n - 1] == 'e'
  }

  /** The character test is the suffix test on `"_range"`. */
  lemma RangeFieldSuffix(field: string)
    ensures IsRangeField(field) <==> |field| >= 6 && field[|field| - 6..] == "_range"
  {
    if |field| >= 6 && IsRangeField(field) {
      var t := field[|field| - 6..];
      assert t == [t[0], t[1], t[2], t[3], t[4], t[5]];
    }
  }

  /** Range fields carry dates and every other field carries text, as the page builds them. */
  predicate WellTyped(fs: seq<Filter>) {
    forall i :: 0 <= i < |fs| ==> (IsRangeField(fs[i].field) <==> fs[i].value.Dates?)
  }

  /** The value stored under `field`: the dictionary's lookup. */
  function Get(fs: seq<Filter>, field: string): (v: Option<FilterValue>)
    ensures v.Some? <==> exists i :: 0 <= i < |fs| && fs[i].field == field
  {
    if fs == [] then None
    else if fs[0].field == field then Some(fs[0].value)
    else Get(fs[1..], field)
  }

  /** `d[field] = value` on an insertion-ordered dictionary: an existing key keeps its place. */
  function Insert(fs: seq<Filter>, field: string, value: FilterValue): (r: seq<Filter>)
    ensures Get(r, field) == Some(value)
    ensures forall k :: k != field ==> Get(r, k) == Get(fs, k)
    ensures Get(fs, field).None? ==> r == fs + [Filter(field, value)]
  {
    if fs == [] then [Filter(field, value)]
    else if fs[0].field == field then [Filter(field, value)] + fs[1..]
    else
      assert fs == [fs[0]] + fs[1..];
      [fs[0]] + Insert(fs[1..], field, value)
  }

  /** Storing a value of the kind its field calls for keeps the dictionary well typed. */
  lemma {:induction false} InsertWellTyped(fs: seq<Filter>, field: string, value: FilterValue)
    requires WellTyped(fs)
    requires IsRangeField(field) <==> value.Dates?
    ensures WellTyped(Insert(fs, field, value))
  {
    if fs != [] && fs[0].field != field {
      assert WellTyped(fs[1..]) by {
        forall i | 0 <= i < |fs[1..]| ensures IsRangeField(fs[1..][i].field) <==> fs[1..][i].value.Dates? {
          assert fs[1..][i] == fs[i + 1];
        }
      }
      InsertWellTyped(fs[1..], field, value);
      var r := Insert(fs, field, value);
      assert r == [fs[0]] + Insert(fs[1..], field, value);
      forall i | 0 <= i < |r| ensures IsRangeField(r[i].field) <==> r[i].value.Dates? {
        if i > 0 { assert r[i] == Insert(fs[1..], field, value)[i - 1]; }
      }
    }
  }

  /** Storing under a new key appends the entry and keeps the dictionary well typed. */
  lemma InsertFresh(fs: seq<Filter>, field: string, value: FilterValue)
    requires WellTyped(fs)
    requires IsRangeField(field) <==> value.Dates?
    requires forall i :: 0 <= i < |fs| ==> fs[i].field != field
    ensures Insert(fs, field, value) == fs + [Filter(field, value)]
    ensures WellTyped(fs + [Filter(field, value)])
  {
    InsertWellTyped(fs, field, value);
  }

  /** The page's field names: only the registration range is a range field, and no two coincide. */
  lemma FieldNames()
    ensures !IsRangeField("name") && !IsRangeField("description")
    ensures !IsRangeField("user_id") && !IsRangeField("email") && !IsRangeField("institution")
    ensures IsRangeField("registered_on_range")
    ensures "name" != "description"
    ensures "user_id" != "email" && "user_id" != "institution" && "email" != "institution"
    ensures "user_id" != "registered_on_range" && "email" != "registered_on_range" && "institution" != "registered_on_range"
  {
  }

  /** `if text: d[field] = text` for a text field the dictionary does not hold yet. */
  method PutIfGiven(fs: seq<Filter>, field: string, text: string) returns (r: seq<Filter>)
    requires WellTyped(fs) && !IsRangeField(field)
    requires forall i :: 0 <= i < |fs| ==> fs[i].field != field
    ensures WellTyped(r)
    ensures r == fs + (if text != "" then [Filter(field, Text(text))] else [])
  {
    r := fs;
    if text != "" {
      InsertFresh(fs, field, Text(text));
      r := Insert(fs, field, Text(text));
    }
  }

  /** The subject filters: each text filter only when its input box is non-empty. */
  method SubjectFilters(name: string, desc: string) returns (fs: seq<Filter>)
    ensures WellTyped(fs)
    ensures fs == (if name != "" then [Filter("name", Text(name))] else [])
                  + (if desc != "" then [Filter("description", Text(desc))] else [])
  {
    FieldNames();
    fs := PutIfGiven([], "name", name);
    assert fs == if name != "" then [Filter("name", Text(name))] else [];
    fs := PutIfGiven(fs, "description", desc);
  }

  /**
    The user filters: user id, email and institution only when non-empty, then
    the registration range, which is always present and always last.
   */
  method UserFilters(userId: string, email: string, institution: string, registered: seq<string>)
    returns (fs: seq<Filter>)
    ensures WellTyped(fs)
    ensures fs == (if userId != "" then [Filter("user_id", Text(userId))] else [])
                  + (if email != "" then [Filter("email", Text(email))] else [])
                  + (if institution != "" then [Filter("institution", Text(institution))] else [])
                  + [Filter("registered_on_range", Dates(registered))]
  {
    FieldNames();
    fs := PutIfGiven([], "user_id", userId);
    assert fs == if userId != "" then [Filter("user_id", Text(userId))] else [];
    fs := PutIfGiven(fs, "email", email);
    fs := PutIfGiven(fs, "institution", institution);
    InsertFresh(fs, "registered_on_range", Dates(registered));
    fs := Insert(fs, "registered_on_range", Dates(registered));
  }

  // ---------------------------------------------------------------------------
  // The query builder

  /** A SQL string with `?` placeholders and the values bound to them, in order. */
  datatype Query = Query(sql: string, params: seq<string>)

  /** The message of the page when building or running the query raises. */
  const QueryFailed := "Query failed"

  /** The fixed start of every query. */
  function Header(table: string): string {
    "SELECT * FROM " + table + " WHERE 1=1"
  }

  /** Every range filter holds a start and an end date (`val[0]` and `val[1]` exist). */
  predicate Bounded(fs: seq<Filter>) {
    forall i :: 0 <= i < |fs| && IsRangeField(fs[i].field) ==> fs[i].value.Dates? && |fs[i].value.dates| >= 2
  }

  /** The clause one filter adds. */
  function Clause(f: Filter): string {
    if IsRangeField(f.field) then " AND DATE(registered_on) BETWEEN ? AND ?"
    else " AND " + f.field + " LIKE ?"
  }

  /** The parameters one filter adds: start then end date, or the text wrapped in `%`. */
  function Params(f: Filter): (ps: seq<string>)
    requires IsRangeField(f.field) ==> f.value.Dates? && |f.value.dates| >= 2
    requires !IsRangeField(f.field) ==> f.value.Text?
  {
    if IsRangeField(f.field) then [f.value.dates[0], f.value.dates[1]]
    else ["%" + f.value.text + "%"]
  }

  /** The clauses of a filter list, in dictionary order. */
  function Clauses(fs: seq<Filter>): string {
    if fs == [] then "" else Clauses(fs[..|fs| - 1]) + Clause(fs[|fs| - 1])
  }

  /** The parameters of a filter list, in dictionary order. */
  function AllParams(fs: seq<Filter>): seq<string>
    requires WellTyped(fs) && Bounded(fs)
  {
    if fs == [] then [] else AllParams(fs[..|fs| - 1]) + Params(fs[|fs| - 1])
  }

  /** What the builder produces: the header, one clause per filter, or the failure when a range lacks a date. */
  function Expected(table: string, fs: seq<Filter>): (r: Result<Query, string>)
    requires WellTyped(fs)
    ensures r.Err? <==> exists i :: 0 <= i < |fs| && IsRangeField(fs[i].field) && |fs[i].value.dates| < 2
    ensures r.Err? ==> r.error == QueryFailed
    ensures r.Ok? ==> Header(table) <= r.value.sql
  {
    if Bounded(fs) then Ok(Query(Header(table) + Clauses(fs), AllParams(fs))) else Err(QueryFailed)
  }

  /** The page's loop over the filter dictionary, extending the query and the parameter list. */
  method BuildQuery(table: string, filters: seq<Filter>) returns (r: Result<Query, string>)
    requires WellTyped(filters)
    ensures r == Expected(table, filters)
    ensures filters == [] ==> r == Ok(Query("SELECT * FROM " + table + " WHERE 1=1", []))
  {
    var query := "SELECT * FROM " + table + " WHERE 1=1";
    var params: seq<string> := [];
    var i := 0;
    while i < |filters|
      invariant 0 <= i <= |filters|
      invariant WellTyped(filters[..i]) && Bounded(filters[..i])
      invariant query == Header(table) + Clauses(filters[..i])
      invariant params == AllParams(filters[..i])
    {
      var f := filters[i];
      if IsRangeField(f.field) && |f.value.dates| < 2 {
        assert !Bounded(filters);
        return Err(QueryFailed);
      }
      PrefixStep(filters, i);
      AppendAssoc(Header(table), Clauses(filters[..i]), Clause(f));
      if IsRangeField(f.field) {
        query := query + " AND DATE(registered_on) BETWEEN ? AND ?";
        params := params + [f.value.dates[0], f.value.dates[1]];
      } else {
        query := query + (" AND " + f.field + " LIKE ?");
        params := params + ["%" + f.value.text + "%"];
      }
      i := i + 1;
    }
    assert filters[..i] == filters;
    return Ok(Query(query, params));
  }

  /** One more filter of the list adds its clause and its parameters at the end. */
  lemma PrefixStep(fs: seq<Filter>, i: int)
    requires 0 <= i < |fs| && WellTyped(fs) && Bounded(fs[..i])
    requires IsRangeField(fs[i].field) ==> |fs[i].value.dates| >= 2
    ensures WellTyped(fs[..i + 1]) && Bounded(fs[..i + 1])
    ensures Clauses(fs[..i + 1]) == Clauses(fs[..i]) + Clause(fs[i])
    ensures AllParams(fs[..i + 1]) == AllParams(fs[..i]) + Params(fs[i])
  {
    assert fs[..i + 1][..i] == fs[..i];
    assert forall j :: 0 <= j < i + 1 ==> fs[..i + 1][j] == fs[j];
    assert WellTyped(fs[..i]) by {
      assert forall j :: 0 <= j < i ==> fs[..i][j] == fs[j];
    }
  }

  /** Concatenation groups either way. */
  lemma AppendAssoc<T>(x: seq<T>, y: seq<T>, z: seq<T>)
    ensures (x + y) + z == x + (y + z)
  {
  }

  /** The clauses and parameters of two filter lists in a row are those of each, in order. */
  lemma {:induction false} ClausesConcat(a: seq<Filter>, b: seq<Filter>)
    requires WellTyped(a + b) && Bounded(a + b)
    ensures WellTyped(a) && Bounded(a) && WellTyped(b) && Bounded(b)
    ensures Clauses(a + b) == Clauses(a) + Clauses(b)
    ensures AllParams(a + b) == AllParams(a) + AllParams(b)
    decreases |b|
  {
    forall i | 0 <= i < |a| ensures (a + b)[i] == a[i] { }
    forall i | 0 <= i < |b| ensures (a + b)[|a| + i] == b[i] { }
    if b == [] {
      assert a + b == a;
    } else {
      var init := b[..|b| - 1];
      var last := b[|b| - 1];
      assert (a + b)[..|a + b| - 1] == a + init;
      assert (a + b)[|a + b| - 1] == last;
      assert a + b == (a + init) + [last];
      assert b[..|b| - 1] == init;
      ClausesConcat(a, init);
      var ca, ci, cl := Clauses(a), Clauses(init), Clause(last);
      assert Clauses(a + b) == (ca + ci) + cl;
      assert Clauses(b) == ci + cl;
      AppendAssoc(ca, ci, cl);
      var pa, pi, pl := AllParams(a), AllParams(init), Params(last);
      assert AllParams(a + b) == (pa + pi) + pl;
      assert AllParams(b) == pi + pl;
      AppendAssoc(pa, pi, pl);
    }
  }

  /** Counting over three pieces in a row. */
  lemma CountSplit(a: string, m: string, b: string, c: char)
    ensures Count(a + m + b, c) == Count(a, c) + Count(m, c) + Count(b, c)
  {
    CountConcat(a, m, c);
    CountConcat(a + m, b, c);
  }

  /** The text around the placeholders of the range clause holds none. */
  lemma RangeClauseFacts()
    ensures " AND DATE(registered_on) BETWEEN ? AND ?" == " AND DATE(registered_on) BETWEEN " + "? AND ?"
    ensures '?' !in " AND DATE(registered_on) BETWEEN "
  {
  }

  /** The tail of the range clause holds its two placeholders. */
  lemma RangeTailCount()
    ensures Count("? AND ?", '?') == 2
  {
  }

  /** The range clause holds two placeholders. */
  lemma RangeClausePlaceholders()
    ensures Count(" AND DATE(registered_on) BETWEEN ? AND ?", '?') == 2
  {
    RangeClauseFacts();
    RangeTailCount();
    CountConcat(" AND DATE(registered_on) BETWEEN ", "? AND ?", '?');
  }

  /** The text around the field name of a text clause. */
  lemma TextClauseFacts()
    ensures '?' !in " AND "
    ensures Count(" LIKE ?", '?') == 1
  {
  }

  /** A text clause holds one placeholder when its field name holds none. */
  lemma TextClausePlaceholders(field: string)
    requires '?' !in field
    ensures Count(" AND " + field + " LIKE ?", '?') == 1
  {
    TextClauseFacts();
    CountSplit(" AND ", field, " LIKE ?", '?');
  }

  /** The placeholders one clause adds are as many as its parameters. */
  lemma ClausePlaceholders(f: Filter)
    requires IsRangeField(f.field) ==> f.value.Dates? && |f.value.dates| >= 2
    requires !IsRangeField(f.field) ==> f.value.Text?
    requires '?' !in f.field
    ensures Count(Clause(f), '?') == |Params(f)|
  {
    if IsRangeField(f.field) {
      RangeClausePlaceholders();
    } else {
      TextClausePlaceholders(f.field);
    }
  }

  /** The fixed text of the header holds no placeholder. */
  lemma HeaderFacts()
    ensures '?' !in "SELECT * FROM " && '?' !in " WHERE 1=1"
  {
  }

  /** The header's placeholders are those of the table name. */
  lemma HeaderPlaceholders(table: string)
    ensures Count(Header(table), '?') == Count(table, '?')
  {
    HeaderFacts();
    CountSplit("SELECT * FROM ", table, " WHERE 1=1", '?');
  }

  /**
    The placeholders of the query are those of the table name plus one per
    parameter: with a table name and field names free of `?`, placeholders and
    parameters match one for one.
   */
  lemma {:induction false} PlaceholdersMatchParams(table: string, fs: seq<Filter>)
    requires WellTyped(fs) && Bounded(fs)
    requires forall i :: 0 <= i < |fs| ==> '?' !in fs[i].field
    ensures Count(Header(table) + Clauses(fs), '?') == Count(table, '?') + |AllParams(fs)|
    decreases |fs|
  {
    if fs == [] {
      HeaderPlaceholders(table);
      assert Header(table) + Clauses(fs) == Header(table);
    } else {
      var init := fs[..|fs| - 1];
      var last := fs[|fs| - 1];
      assert forall i :: 0 <= i < |init| ==> init[i] == fs[i];
      PlaceholdersMatchParams(table, init);
      ClausePlaceholders(last);
      var h, c := Header(table), Clauses(init);
      assert Clauses(fs) == c + Clause(last);
      AppendAssoc(h, c, Clause(last));
      CountConcat(h + c, Clause(last), '?');
    }
  }

  /** The query of the users page ends with the registration range, bound to its start and end date. */
  lemma UsersQueryEndsWithRange(table: string, init: seq<Filter>, registered: seq<string>)
    requires WellTyped(init + [Filter("registered_on_range", Dates(registered))])
    requires Bounded(init)
    ensures var fs := init + [Filter("registered_on_range", Dates(registered))];
            && (Expected(table, fs).Ok? <==> |registered| >= 2)
            && (|registered| >= 2 ==>
                  Expected(table, fs) == Ok(Query(Header(table) + (Clauses(init) + " AND DATE(registered_on) BETWEEN ? AND ?"),
                                                  AllParams(init) + [registered[0], registered[1]])))
  {
    var last := Filter("registered_on_range", Dates(registered));
    var fs := init + [last];
    assert IsRangeField(last.field);
    assert fs[..|fs| - 1] == init;
    assert fs[|fs| - 1] == last;
    assert forall i :: 0 <= i < |init| ==> fs[i] == init[i];
    if |registered| >= 2 {
      assert Bounded(fs);
    } else {
      assert !Bounded(fs);
    }
  }

  // ---------------------------------------------------------------------------
  // Import: text to rows

  /** `s.strip()` is non-empty: the line is kept by the importers. */
  predicate NotBlank(line: string) {
    Strip(line) != ""
  }

  /** The lines an importer keeps: the non-blank ones, in order. */
  function KeptLines(lines: seq<string>): (kept: seq<string>)
    ensures |kept| <= |lines|
    ensures forall i :: 0 <= i < |kept| ==> NotBlank(kept[i])
  {
    if lines == [] then []
    else (if NotBlank(lines[0]) then [lines[0]] else []) + KeptLines(lines[1..])
  }

  /** Filtering distributes over concatenation, so the kept lines keep their order. */
  lemma {:induction false} KeptLinesConcat(a: seq<string>, b: seq<string>)
    ensures KeptLines(a + b) == KeptLines(a) + KeptLines(b)
  {
    if a == [] {
      assert a + b == b;
    } else {
      assert (a + b)[0] == a[0] && (a + b)[1..] == a[1..] + b;
      KeptLinesConcat(a[1..], b);
    }
  }

  /** A line is kept exactly when it is not blank. */
  lemma KeptLinesSingle(line: string)
    ensures KeptLines([line]) == if NotBlank(line) then [line] else []
  {
    assert [line][1..] == [];
  }

  /** Every non-blank line, and only those, is kept. */
  lemma {:induction false} KeptLinesExactly(lines: seq<string>, line: string)
    ensures line in KeptLines(lines) <==> line in lines && NotBlank(line)
  {
    if lines != [] {
      KeptLinesExactly(lines[1..], line);
      assert lines == [lines[0]] + lines[1..];
    }
  }

  /** `[line.split(",") for line in lines if line.strip()]`. */
  function Rows(lines: seq<string>): (rows: seq<seq<string>>)
    ensures |rows| == |KeptLines(lines)|
    ensures forall i :: 0 <= i < |rows| ==> |rows[i]| >= 1 && Join(rows[i], ',') == KeptLines(lines)[i]
  {
    var kept := KeptLines(lines);
    var rows := seq(|kept|, i requires 0 <= i < |kept| => Split(kept[i], ','));
    assert forall i :: 0 <= i < |rows| ==> Join(rows[i], ',') == kept[i] by {
      forall i | 0 <= i < |rows| ensures Join(rows[i], ',') == kept[i] {
        JoinSplit(kept[i], ',');
      }
    }
    rows
  }

  /** Each row, joined back with ",", is the line it came from, and no field holds a comma. */
  lemma RowsRoundTrip(lines: seq<string>, i: int)
    requires 0 <= i < |Rows(lines)|
    ensures Split(Join(Rows(lines)[i], ','), ',') == Rows(lines)[i]
    ensures forall j :: 0 <= j < |Rows(lines)[i]| ==> ',' !in Rows(lines)[i][j]
  {
    var row := Rows(lines)[i];
    assert |row| >= 1;
    assert row == Split(KeptLines(lines)[i], ',');
    SplitJoin(row, ',');
  }

  /**
    The Text importer (and the RTF importer, on the extracted plain text): one
    row per non-blank line, in order, each joining back into its line.
   */
  function TextRows(content: string): (rows: seq<seq<string>>)
    ensures |rows| == |KeptLines(SplitLines(content))|
    ensures forall i :: 0 <= i < |rows| ==> Join(rows[i], ',') == KeptLines(SplitLines(content))[i]
    ensures forall i :: 0 <= i < |rows| ==>
              |rows[i]| >= 1 && Join(rows[i], ',') in SplitLines(content) && NotBlank(Join(rows[i], ','))
  {
    var lines := SplitLines(content);
    var rows := Rows(lines);
    assert forall i :: 0 <= i < |rows| ==> Join(rows[i], ',') in lines by {
      forall i | 0 <= i < |rows| ensures Join(rows[i], ',') in lines {
        KeptLinesExactly(lines, KeptLines(lines)[i]);
      }
    }
    rows
  }

  /** The Word importer: one row per paragraph whose text is not blank, split on ",". */
  function WordRows(paragraphs: seq<string>): (rows: seq<seq<string>>)
    ensures |rows| == |KeptLines(paragraphs)|
    ensures forall i :: 0 <= i < |rows| ==> Join(rows[i], ',') == KeptLines(paragraphs)[i]
    ensures forall i :: 0 <= i < |rows| ==>
              |rows[i]| >= 1 && Join(rows[i], ',') in paragraphs && NotBlank(Join(rows[i], ','))
  {
    var rows := Rows(paragraphs);
    assert forall i :: 0 <= i < |rows| ==> Join(rows[i], ',') in paragraphs by {
      forall i | 0 <= i < |rows| ensures Join(rows[i], ',') in paragraphs {
        KeptLinesExactly(paragraphs, KeptLines(paragraphs)[i]);
      }
    }
    rows
  }

  /** `"\n".join(page.extract_text() or "" for page in pages)`; a page without text counts as "". */
  function PdfText(pages: seq<Option<string>>): string {
    Join(PageTexts(pages), '\n')
  }

  /** The text of each page, "" for a page without text. */
  function PageTexts(pages: seq<Option<string>>): (texts: seq<string>)
    ensures |texts| == |pages|
    ensures forall i :: 0 <= i < |pages| ==> texts[i] == pages[i].GetOr("")
  {
    seq(|pages|, i requires 0 <= i < |pages| => pages[i].GetOr(""))
  }

  /** The non-blank lines of each text, texts in order. */
  function EachKeptLines(texts: seq<string>): seq<string> {
    if texts == [] then [] else KeptLines(SplitLines(texts[0])) + EachKeptLines(texts[1..])
  }

  /** A text without a line boundary splits into that one line (none when it is empty), so it keeps what the one-line list keeps. */
  lemma BoundaryFreeTextIsOneLine(x: string)
    requires forall i :: 0 <= i < |x| ==> !IsLineBreak(x[i])
    ensures KeptLines([x]) == KeptLines(SplitLines(x))
  {
    if x == [] {
      assert Strip(x) == [];
      assert [x][1..] == [];
    } else {
      assert LineEnd(x, 0) == |x|;
    }
  }

  /** The main statement of `KeptLinesJoin`, for a first text without a boundary. */
  lemma KeptLinesJoinOneLine(x: string, y: string)
    requires LineEnd(x, 0) == |x|
    ensures KeptLines(SplitLines(x + ['\n'] + y)) == KeptLines(SplitLines(x)) + KeptLines(SplitLines(y))
  {
    var s := x + ['\n'] + y;
    LineEndConcat(x, ['\n'] + y, 0);
    assert s == x + (['\n'] + y);
    assert s[|x|] == '\n';
    assert LineEnd(s, |x|) == |x|;
    assert s[..|x|] == x && s[|x| + 1..] == y;
    assert BoundaryEnd(s, |x|) == |x| + 1;
    assert SplitLines(s) == [x] + SplitLines(y);
    KeptLinesConcat([x], SplitLines(y));
    BoundaryFreeTextIsOneLine(x);
  }

  /** The main statement of `KeptLinesJoin`, for a first text whose only boundary is a final "\r". */
  lemma KeptLinesJoinFinalReturn(x: string, y: string)
    requires LineEnd(x, 0) + 1 == |x| && x[|x| - 1] == '\r'
    ensures KeptLines(SplitLines(x + ['\n'] + y)) == KeptLines(SplitLines(x)) + KeptLines(SplitLines(y))
  {
    var s := x + ['\n'] + y;
    var k := |x| - 1;
    LineEndConcat(x, ['\n'] + y, 0);
    assert s == x + (['\n'] + y);
    assert s[..k] == x[..k] && s[k] == '\r' && s[k + 1] == '\n' && s[k + 2..] == y;
    assert BoundaryEnd(s, k) == k + 2;
    assert SplitLines(s) == [x[..k]] + SplitLines(y);
    assert BoundaryEnd(x, k) == k + 1;
    assert x[k + 1..] == [];
    assert SplitLines(x) == [x[..k]] + SplitLines(x[k + 1..]);
    assert SplitLines(x) == [x[..k]] + [];
    KeptLinesConcat([x[..k]], SplitLines(y));
  }

  /**
    Joining two texts with "\n" and splitting into lines keeps the non-blank
    lines of the first, then those of the second. ("\r" followed by the
    joining "\n" is one boundary; the line it ends is the same either way.)
   */
  lemma {:induction false} KeptLinesJoin(x: string, y: string)
    ensures KeptLines(SplitLines(x + ['\n'] + y)) == KeptLines(SplitLines(x)) + KeptLines(SplitLines(y))
    decreases |x|
  {
    var k := LineEnd(x, 0);
    if k == |x| {
      KeptLinesJoinOneLine(x, y);
    } else if x[k] == '\r' && k + 1 == |x| {
      KeptLinesJoinFinalReturn(x, y);
    } else {
      var s := x + ['\n'] + y;
      LineEndConcat(x, ['\n'] + y, 0);
      assert s == x + (['\n'] + y);
      var line := x[..k];
      var j := BoundaryEnd(x, k);
      assert s[..k] == line && s[k] == x[k];
      if k + 1 < |x| {
        assert s[k + 1] == x[k + 1];
      }
      assert BoundaryEnd(s, k) == j;
      assert s[j..] == x[j..] + ['\n'] + y;
      assert SplitLines(s) == [line] + SplitLines(s[j..]);
      assert SplitLines(x) == [line] + SplitLines(x[j..]);
      KeptLinesJoin(x[j..], y);
      KeptLinesConcat([line], SplitLines(s[j..]));
      KeptLinesConcat([line], SplitLines(x[j..]));
      AppendAssoc(KeptLines([line]), KeptLines(SplitLines(x[j..])), KeptLines(SplitLines(y)));
    }
  }

  /** Joining texts with "\n" keeps the non-blank lines of each text, texts in order. */
  lemma {:induction false} KeptLinesJoinAll(texts: seq<string>)
    ensures KeptLines(SplitLines(Join(texts, '\n'))) == EachKeptLines(texts)
  {
    if texts == [] {
    } else if |texts| == 1 {
      assert texts[1..] == [];
    } else {
      KeptLinesJoinAll(texts[1..]);
      KeptLinesJoin(texts[0], Join(texts[1..], '\n'));
      assert Join(texts, '\n') == texts[0] + ['\n'] + Join(texts[1..], '\n');
    }
  }

  /** The PDF importer keeps the non-blank lines of each page, pages in order. */
  lemma PdfKeepsPageLines(pages: seq<Option<string>>)
    ensures KeptLines(SplitLines(PdfText(pages))) == EachKeptLines(PageTexts(pages))
  {
    assert PdfText(pages) == Join(PageTexts(pages), '\n');
    KeptLinesJoinAll(PageTexts(pages));
  }

  /** The PDF importer: one row per non-blank line of each page, pages in order. */
  function PdfRows(pages: seq<Option<string>>): (rows: seq<seq<string>>)
    ensures |rows| == |EachKeptLines(PageTexts(pages))|
    ensures forall i :: 0 <= i < |rows| ==> |rows[i]| >= 1 && Join(rows[i], ',') == EachKeptLines(PageTexts(pages))[i]
  {
    PdfKeepsPageLines(pages);
    Rows(SplitLines(PdfText(pages)))
  }
}
