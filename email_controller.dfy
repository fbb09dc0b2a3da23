/** `EmailController`: how a bulk-send request becomes a list of recipient
    addresses (pasted text, or an uploaded text, CSV or spreadsheet file),
    the upload type filter, and the `sendBulkEmails` decision flow that
    hands the list to `queueBulkEmails` and shapes the HTTP response.

    A spreadsheet reaches the model as what `xlsx` makes of it: the rows of
    the first sheet, each an ordered list of (column, cell) pairs in the
    order `Object.values` yields them, or no sheet at all, or the error
    `readFile` throws. A text file reaches it as its contents or the error
    `readFileSync` throws. */
module EmailController {
  import opened Wrappers
  import opened Strings
  import opened Seqs
  import opened Paths
  import opened Records
  import opened EmailRepository
  import opened EmailQueue
  import opened Sockets
  import opened EmailService

  // ---------------------------------------------------------------------
  // Tokenisers

  /** `/[\s,;|\n\r\t]+/`: white space, comma, semicolon and bar. */
  const TextSeparators: set<char> := set c: char | IsSpace(c) || c in {',', ';', '|'}

  /** `/[\r\n,;|\t]+/`: the same without the space character. */
  const FileSeparators: set<char> := {'\r', '\n', ',', ';', '|', '\t'}

  predicate IsAddressToken(t: string) {
    |t| > 0 && '@' in t
  }

  /** `.map(trim).filter(t => t.length > 0 && t.includes('@'))`. */
  function KeepAddresses(pieces: seq<string>): seq<string> {
    Filter(Map(pieces, Trim), IsAddressToken)
  }

  /** `parseEmailsFromText`: every token holds an `@`, holds no white
      space, comma, semicolon or bar, and is a contiguous part of the text. */
  function ParseEmailsFromText(text: string): (r: seq<string>)
    ensures forall t :: t in r ==> IsAddressToken(t) && IsTrimmed(t) && NoneIn(t, TextSeparators) && IsInfix(t, text)
  {
    AddressTokens(text, TextSeparators);
    KeepAddresses(SplitRuns(text, TextSeparators))
  }

  /** `parseTextFile`, on the file's contents: the same, with the file
      separators, so spaces stay inside a token. */
  function ParseTextContent(content: string): (r: seq<string>)
    ensures forall t :: t in r ==> IsAddressToken(t) && IsTrimmed(t) && NoneIn(t, FileSeparators) && IsInfix(t, content)
  {
    AddressTokens(content, FileSeparators);
    KeepAddresses(SplitRuns(content, FileSeparators))
  }

  /** `TokensSpec` for every token at once. */
  lemma AddressTokens(s: string, cs: set<char>)
    ensures forall t :: t in KeepAddresses(SplitRuns(s, cs)) ==>
              IsAddressToken(t) && IsTrimmed(t) && NoneIn(t, cs) && IsInfix(t, s)
  {
    forall t | t in KeepAddresses(SplitRuns(s, cs))
      ensures IsAddressToken(t) && IsTrimmed(t) && NoneIn(t, cs) && IsInfix(t, s)
    {
      TokensSpec(s, cs, t);
    }
  }

  /** What a tokeniser keeps: a token is a trimmed non-empty piece of the
      input that holds an `@` and no separator, and every piece whose trim
      is such a token is kept. */
  lemma TokensSpec(s: string, cs: set<char>, t: string)
    ensures t in KeepAddresses(SplitRuns(s, cs)) ==>
              && IsAddressToken(t) && IsTrimmed(t) && NoneIn(t, cs) && IsInfix(t, s)
    ensures t in KeepAddresses(SplitRuns(s, cs)) <==>
              IsAddressToken(t) && exists k :: 0 <= k < |SplitRuns(s, cs)| && Trim(SplitRuns(s, cs)[k]) == t
  {
    var pieces := SplitRuns(s, cs);
    var trimmed := Map(pieces, Trim);
    FilterMembership(trimmed, IsAddressToken, t);
    if t in trimmed {
      var k :| 0 <= k < |trimmed| && trimmed[k] == t;
      TrimSpec(pieces[k]);
      TrimNoneIn(pieces[k], cs);
      TrimInfix(pieces[k]);
      SplitRunsPieceIsInfix(s, cs, k);
      InfixTransitive(t, pieces[k], s);
    }
    if IsAddressToken(t) && exists k :: 0 <= k < |pieces| && Trim(pieces[k]) == t {
      var k :| 0 <= k < |pieces| && Trim(pieces[k]) == t;
      assert trimmed[k] == t;
    }
  }

  /** Pieces that are already trimmed address tokens are kept as they are. */
  lemma {:induction false} KeepAddressesOfTokens(xs: seq<string>)
    requires forall k :: 0 <= k < |xs| ==> IsTrimmed(xs[k]) && IsAddressToken(xs[k])
    ensures KeepAddresses(xs) == xs
  {
    if xs != [] {
      KeepAddressesOfTokens(xs[1..]);
      TrimmedIsFixed(xs[0]);
      assert Map(xs, Trim) == [xs[0]] + Map(xs[1..], Trim);
    }
  }

  /** A trimmed address with no file separator, spaces included, is one
      token of a text file. */
  lemma FileLineIsOneToken(line: string)
    requires NoneIn(line, FileSeparators) && IsTrimmed(line) && IsAddressToken(line)
    ensures ParseTextContent(line) == [line]
  {
    SplitRunsClean(line, FileSeparators);
    KeepAddressesOfTokens([line]);
  }

  /** A space does not separate addresses in a text file. */
  lemma FileRuleKeepsSpaces()
    ensures ParseTextContent("a@x.com b@y.com") == ["a@x.com b@y.com"]
  {
    var line := "a@x.com b@y.com";
    assert line[1] == '@';
    assert line[0] == 'a' && line[|line| - 1] == 'm';
    FileLineIsOneToken(line);
  }

  /** Lower-case letters, `@` and `.` separate nothing in pasted text,
      and a string of them is trimmed. */
  lemma PlainAddressChars(t: string)
    requires forall k :: 0 <= k < |t| ==> 'a' <= t[k] <= 'z' || t[k] == '@' || t[k] == '.'
    ensures NoneIn(t, TextSeparators) && IsTrimmed(t)
  {
    forall k | 0 <= k < |t| ensures t[k] !in TextSeparators {
      assert !IsSpace(t[k]);
    }
  }

  /** Two addresses with one space between them are two tokens. */
  lemma SpaceSplitsText(a: string, b: string)
    requires NoneIn(a, TextSeparators) && IsTrimmed(a) && IsAddressToken(a)
    requires NoneIn(b, TextSeparators) && IsTrimmed(b) && IsAddressToken(b)
    ensures ParseEmailsFromText(a + " " + b) == [a, b]
  {
    assert IsSpace(' ');
    SplitRunsOneSeparator(a, ' ', b, TextSeparators);
    KeepAddressesOfTokens([a, b]);
  }

  /** In pasted text it does. */
  lemma TextRuleSplitsSpaces()
    ensures ParseEmailsFromText("a@x.com b@y.com") == ["a@x.com", "b@y.com"]
  {
    var a, b := "a@x.com", "b@y.com";
    assert "a@x.com b@y.com" == a + " " + b;
    PlainAddressChars(a);
    PlainAddressChars(b);
    assert a[1] == '@' && b[1] == '@';
    SpaceSplitsText(a, b);
  }

  // ---------------------------------------------------------------------
  // Spreadsheet and CSV files

  /** A cell of `sheet_to_json`'s output: a string, or anything else (a
      number, a boolean, a date). */
  datatype Cell = Text(text: string) | Other

  /** One row, in `Object.values` order, at most one pair per column. */
  type Row = seq<(string, Cell)>

  /** `row[colName]`. */
  function Lookup(row: Row, column: string): (r: Option<Cell>)
    ensures r.Some? <==> exists j :: 0 <= j < |row| && row[j].0 == column
    ensures r.Some? ==> exists j :: 0 <= j < |row| && row[j] == (column, r.value)
  {
    if row == [] then None
    else if row[0].0 == column then Some(row[0].1)
    else
      var r := Lookup(row[1..], column);
      assert forall j :: 1 <= j < |row| ==> row[j] == row[1..][j - 1];
      r
  }

  /** The value a row contributes to a column: its string cell there when
      that is not blank. */
  function ColumnValue(row: Row, column: string): Option<string> {
    match Lookup(row, column)
    case Some(Text(s)) => if Trim(s) != [] then Some(s) else None
    case _ => None
  }

  /** `rows.map(row => row[col]).filter(non-blank string)`. */
  function ColumnEmails(rows: seq<Row>, column: string): seq<string> {
    if rows == [] then []
    else
      (match ColumnValue(rows[0], column) case Some(s) => [s] case None => []) +
      ColumnEmails(rows[1..], column)
  }

  /** `Object.values(row).filter(string).filter(includes '@')`. */
  function RowCellsWithAt(row: Row): seq<string> {
    if row == [] then []
    else
      (match row[0].1 case Text(s) => if '@' in s then [s] else [] case Other => []) +
      RowCellsWithAt(row[1..])
  }

  /** The fallback: `rows.flatMap(...)` over every row. */
  function CellsWithAt(rows: seq<Row>): seq<string> {
    if rows == [] then [] else RowCellsWithAt(rows[0]) + CellsWithAt(rows[1..])
  }

  const EmailColumns: seq<string> := ["email", "Email", "EMAIL", "e-mail", "E-mail", "mail"]

  /** The values of the first of `columns` that yields any. */
  function FirstColumnHit(rows: seq<Row>, columns: seq<string>): seq<string> {
    if columns == [] then []
    else
      var hit := ColumnEmails(rows, columns[0]);
      if hit != [] then hit else FirstColumnHit(rows, columns[1..])
  }

  /** The shared column rule of `parseExcelFile` and `parseCsvFile`. */
  function SelectedEmails(rows: seq<Row>): seq<string> {
    var hit := FirstColumnHit(rows, EmailColumns);
    if hit != [] then hit else CellsWithAt(rows)
  }

  /** A column's values are exactly the non-blank string cells of that
      column, one per row at most, untrimmed and in row order. */
  lemma {:induction false} ColumnEmailsMembership(rows: seq<Row>, column: string, s: string)
    ensures s in ColumnEmails(rows, column) <==>
            exists k :: 0 <= k < |rows| && ColumnValue(rows[k], column) == Some(s)
    ensures |ColumnEmails(rows, column)| <= |rows|
  {
    if rows != [] {
      ColumnEmailsMembership(rows[1..], column, s);
      assert forall k :: 1 <= k < |rows| ==> rows[k] == rows[1..][k - 1];
    }
  }

  lemma {:induction false} RowCellsWithAtMembership(row: Row, s: string)
    ensures s in RowCellsWithAt(row) <==> '@' in s && exists j :: 0 <= j < |row| && row[j].1 == Text(s)
  {
    if row != [] {
      RowCellsWithAtMembership(row[1..], s);
      assert forall j :: 1 <= j < |row| ==> row[j] == row[1..][j - 1];
    }
  }

  /** The fallback yields exactly the string cells holding an `@`, from
      every row and every column. */
  lemma {:induction false} CellsWithAtMembership(rows: seq<Row>, s: string)
    ensures s in CellsWithAt(rows) <==>
            '@' in s && exists k, j :: 0 <= k < |rows| && 0 <= j < |rows[k]| && rows[k][j].1 == Text(s)
  {
    if rows != [] {
      CellsWithAtMembership(rows[1..], s);
      RowCellsWithAtMembership(rows[0], s);
      assert forall k :: 1 <= k < |rows| ==> rows[k] == rows[1..][k - 1];
    }
  }

  /** The first column, in list order, that yields any value wins; later
      columns are not looked at. */
  lemma FirstColumnHitSpec(rows: seq<Row>, columns: seq<string>)
    ensures FirstColumnHit(rows, columns) == [] <==>
            forall j :: 0 <= j < |columns| ==> ColumnEmails(rows, columns[j]) == []
    ensures FirstColumnHit(rows, columns) != [] ==>
            exists j :: 0 <= j < |columns| && FirstColumnHit(rows, columns) == ColumnEmails(rows, columns[j]) &&
                        forall i :: 0 <= i < j ==> ColumnEmails(rows, columns[i]) == []
  {
    FirstColumnHitEmpty(rows, columns);
    if FirstColumnHit(rows, columns) != [] {
      var j := FirstColumnHitAt(rows, columns);
    }
  }

  lemma {:induction false} FirstColumnHitEmpty(rows: seq<Row>, columns: seq<string>)
    ensures FirstColumnHit(rows, columns) == [] <==>
            forall j :: 0 <= j < |columns| ==> ColumnEmails(rows, columns[j]) == []
  {
    if columns != [] {
      FirstColumnHitEmpty(rows, columns[1..]);
      assert forall j :: 1 <= j < |columns| ==> columns[j] == columns[1..][j - 1];
    }
  }

  /** The column that wins. */
  lemma {:induction false} FirstColumnHitAt(rows: seq<Row>, columns: seq<string>) returns (j: nat)
    requires FirstColumnHit(rows, columns) != []
    ensures j < |columns| && FirstColumnHit(rows, columns) == ColumnEmails(rows, columns[j])
    ensures forall i :: 0 <= i < j ==> ColumnEmails(rows, columns[i]) == []
  {
    if ColumnEmails(rows, columns[0]) != [] {
      j := 0;
    } else {
      var j' := FirstColumnHitAt(rows, columns[1..]);
      j := j' + 1;
      assert columns[j] == columns[1..][j'];
      forall i | 0 <= i < j ensures ColumnEmails(rows, columns[i]) == [] {
        if i > 0 {
          assert columns[i] == columns[1..][i - 1];
        }
      }
    }
  }

  /** `parseExcelFile`/`parseCsvFile` after the sheet is read: the loop
      over the column names with its early `break`, then the fallback. */
  method SelectEmails(rows: seq<Row>) returns (emails: seq<string>)
    ensures emails == SelectedEmails(rows)
  {
    var columns := EmailColumns;
    emails := [];
    var i := 0;
    while i < |columns|
      invariant 0 <= i <= |columns|
      invariant emails == []
      invariant FirstColumnHit(rows, columns) == FirstColumnHit(rows, columns[i..])
    {
      emails := ColumnEmails(rows, columns[i]);
      assert columns[i..][1..] == columns[i + 1..];
      if |emails| > 0 {
        break;
      }
      i := i + 1;
    }
    if |emails| == 0 {
      emails := CellsWithAt(rows);
    }
  }

  const ExcelEmpty: string := "Excel file appears to be empty or corrupted"
  const CsvEmpty: string := "CSV file appears to be empty or corrupted"

  /** `xlsx.readFile` plus the first sheet: the error it throws, no sheet,
      or the sheet's rows. */
  type Workbook = Result<Option<seq<Row>>, string>

  /** The body of `parseExcelFile`/`parseCsvFile`: the message of what it
      throws, or the selected addresses. */
  function ParseSheet(book: Workbook, emptyMessage: string): (r: Result<seq<string>, string>)
    ensures book.Failure? ==> r == Failure(book.error)
    ensures book == Success(None) ==> r == Failure(emptyMessage)
    ensures book.Success? && book.value.Some? ==> r == Success(SelectedEmails(book.value.value))
  {
    match book
    case Failure(m) => Failure(m)
    case Success(None) => Failure(emptyMessage)
    case Success(Some(rows)) => Success(SelectedEmails(rows))
  }

  // ---------------------------------------------------------------------
  // Uploads

  /** An uploaded file as the handlers see it. */
  datatype StoredFile = StoredFile(originalName: string, mimetype: string, book: Workbook, text: Result<string, string>)

  const AllowedMimeTypes: seq<string> := [
    "text/csv",
    "text/plain",
    "application/vnd.ms-excel",
    "application/vnd.openxmlformats-officedocument.spreadsheetml.sheet",
    "application/octet-stream"
  ]

  const AllowedExtensions: seq<string> := [".csv", ".txt", ".xls", ".xlsx"]

  const InvalidFileType: string := "Invalid file type. Only CSV, TXT, XLS, and XLSX files are allowed."

  /** multer's `fileFilter`. */
  function FileFilter(originalName: string, mimetype: string): (r: Outcome<string>)
    ensures r == Pass <==> mimetype in AllowedMimeTypes || ToLower(Extname(originalName)) in AllowedExtensions
    ensures r.Fail? ==> r.error == InvalidFileType
  {
    if mimetype in AllowedMimeTypes || ToLower(Extname(originalName)) in AllowedExtensions then Pass
    else Fail(InvalidFileType)
  }

  /** Any mimetype is accepted for a name ending in one of the four
      extensions, in any letter case. */
  lemma FileFilterByName(stem: string, ext: string, mimetype: string)
    requires stem != [] && '/' !in stem
    requires ToLower("." + ext) in AllowedExtensions && '/' !in ext && '.' !in ext
    ensures FileFilter(stem + "." + ext, mimetype) == Pass
  {
    ExtnameOfName(stem, ext);
  }

  /** A dot file named after an extension, such as `.csv`, has no
      extension, so only its mimetype can admit it. */
  lemma FileFilterDotFile(mimetype: string)
    requires mimetype !in AllowedMimeTypes
    ensures FileFilter(".csv", mimetype) == Fail(InvalidFileType)
  {
    ExtnameDotFile("csv");
    assert ".csv" == "." + "csv";
    assert ToLower("") == "";
  }

  /** Which reader `parseEmailsFromFile` picks. */
  datatype Reader = SheetReader | CsvReader | TextReader

  function ReaderFor(ext: string): (r: Reader)
    ensures r == SheetReader <==> ext == ".xlsx" || ext == ".xls"
    ensures r == CsvReader <==> ext == ".csv"
  {
    if ext == ".xlsx" || ext == ".xls" then SheetReader
    else if ext == ".csv" then CsvReader
    else TextReader
  }

  /** `parseEmailsFromFile`: dispatch on the lower-cased extension; every
      error becomes a 400 naming that extension. */
  function ParseEmailsFromFile(file: StoredFile): (r: Result<seq<string>, Failure>)
    ensures var ext := ToLower(Extname(file.originalName));
            r.Failure? ==>
              r.error.AppError? && r.error.statusCode == 400 &&
              StartsWith(r.error.message, "Failed to parse " + ext + " file: ")
  {
    var ext := ToLower(Extname(file.originalName));
    var parsed :=
      match ReaderFor(ext)
      case SheetReader => ParseSheet(file.book, ExcelEmpty)
      case CsvReader => ParseSheet(file.book, CsvEmpty)
      case TextReader =>
        (match file.text case Failure(m) => Failure(m) case Success(c) => Success(ParseTextContent(c)));
    match parsed
    case Success(emails) => Success(emails)
    case Failure(m) =>
      var prefix := "Failed to parse " + ext + " file: ";
      assert (prefix + m)[..|prefix|] == prefix;
      Failure(AppError(prefix + m, 400))
  }

  /** The dispatch table: spreadsheets and CSV go through the column rule
      (with their own empty-sheet message), everything else is read as
      text. */
  lemma ParseEmailsFromFileDispatch(file: StoredFile)
    ensures var ext := ToLower(Extname(file.originalName));
            && (ReaderFor(ext) == SheetReader && file.book.Success? && file.book.value.Some? ==>
                  ParseEmailsFromFile(file) == Success(SelectedEmails(file.book.value.value)))
            && (ReaderFor(ext) == SheetReader && file.book == Success(None) ==>
                  ParseEmailsFromFile(file) == Failure(AppError("Failed to parse " + ext + " file: " + ExcelEmpty, 400)))
            && (ReaderFor(ext) == CsvReader && file.book == Success(None) ==>
                  ParseEmailsFromFile(file) == Failure(AppError("Failed to parse " + ext + " file: " + CsvEmpty, 400)))
            && (ReaderFor(ext) == TextReader && file.text.Success? ==>
                  ParseEmailsFromFile(file) == Success(ParseTextContent(file.text.value)))
  {
  }

  // ---------------------------------------------------------------------
  // sendBulkEmails

  /** The `emails` field of the request body. */
  datatype Field = Absent | Str(s: string) | NonString(truthy: bool)

  /** JavaScript truthiness of the field. */
  predicate Truthy(f: Field) {
    (f.Str? && f.s != []) || (f.NonString? && f.truthy)
  }

  /** The first branch of `sendBulkEmails`: a string with a non-blank trim. */
  predicate TextTaken(f: Field) {
    f.Str? && Trim(f.s) != []
  }

  const NoInput: string := "Either file upload (CSV, TXT, XLS, XLSX) or plain text emails are required"
  const NoneFound: string := "No valid emails found. Make sure to provide valid email addresses."

  /** The addresses `sendBulkEmails` hands to the service, or the error it
      throws before calling it. Every such error is a 400. */
  function ExtractRecipients(field: Field, file: Option<StoredFile>): (r: Result<seq<string>, Failure>)
    ensures r.Failure? ==> r.error.AppError? && r.error.statusCode == 400
    ensures r.Success? ==> r.value != []
    ensures TextTaken(field) ==>
              (r.Success? <==> ParseEmailsFromText(field.s) != []) &&
              (r.Success? ==> r.value == ParseEmailsFromText(field.s))
    ensures !TextTaken(field) && file.None? ==> r == Failure(AppError(NoInput, 400))
  {
    var emails :=
      if TextTaken(field) then Success(ParseEmailsFromText(field.s))
      else if file.Some? then ParseEmailsFromFile(file.value)
      else Failure(AppError(NoInput, 400));
    match emails
    case Failure(e) => Failure(e)
    case Success(list) => if list == [] then Failure(AppError(NoneFound, 400)) else Success(list)
  }

  /** Text wins: with a non-blank text field the upload is never read. */
  lemma TextOverridesFile(s: string, f1: Option<StoredFile>, f2: Option<StoredFile>)
    requires Trim(s) != []
    ensures ExtractRecipients(Str(s), f1) == ExtractRecipients(Str(s), f2)
  {
  }

  /** `source: plainTextEmails ? 'text' : 'file'`, as written. */
  function SourceAsWritten(field: Field): (r: string)
    ensures r == "text" <==> Truthy(field)
    ensures r == "file" <==> !Truthy(field)
  {
    if Truthy(field) then "text" else "file"
  }

  /** A blank text field next to an uploaded file: the file is what gets
      parsed, yet the response says the addresses came from text. */
  lemma SourceMislabelsFile()
    ensures !TextTaken(Str(" ")) && SourceAsWritten(Str(" ")) == "text"
  {
    assert Trim(" ") == [] by {
      assert TrimStart(" ") == TrimStart(" "[1..]);
      assert " "[1..] == [];
    }
  }

  /** The two labels part exactly on a truthy field whose text branch is
      not taken: a blank string, or a value that is not a string. */
  lemma SourceLabelsDiffer(field: Field)
    ensures SourceAsWritten(field) != SourceLabel(field) <==> Truthy(field) && !TextTaken(field)
  {
    if field.Str? && field.s == [] {
      TrimEmpty(field.s);
    }
  }

  /** The label the response evidently means: the branch that supplied the
      addresses. */
  function SourceLabel(field: Field): (r: string)
    ensures r == "text" <==> TextTaken(field)
    ensures r == "file" <==> !TextTaken(field)
  {
    if TextTaken(field) then "text" else "file"
  }

  /** The JSON body of the response. */
  datatype Body =
    | QueuedBody(message: string, total: nat, valid: nat, invalidEmails: seq<string>, source: string)
    | ErrorBody(error: string)

  datatype Response = Response(status: int, body: Body)

  /** The `catch`: `err.statusCode || 500` and `err.message || 'Failed to
      queue emails'`. */
  function ErrorResponse(err: Failure): (r: Response)
    ensures r.status == (if err.AppError? && err.statusCode != 0 then err.statusCode else 500)
    ensures r.body == ErrorBody(if err.message != [] then err.message else "Failed to queue emails")
  {
    Response(err.HttpStatus(), ErrorBody(if err.message != [] then err.message else "Failed to queue emails"))
  }

  /** `sendBulkEmails`. `user` is `req.user`'s id, absent when the request
      is not authenticated; the remaining inputs pass through to
      `queueBulkEmails`. */
  method SendBulkEmails(repo: EmailRepository, queue: Queue, sockets: SocketServer,
                        user: Option<int>, field: Field, file: Option<StoredFile>,
                        templateId: int, subject: string, body: string,
                        isEmail: string -> bool, lookups: LookupFaults,
                        insertFault: nat -> Option<DbError>, enqueueFault: nat -> Option<string>,
                        emitFault: nat -> bool)
    returns (response: Response)
    requires repo.Valid()
    modifies repo.db, queue, sockets.Listeners()
    ensures repo.Valid()
    ensures user.None? ==> response == Response(401, ErrorBody("Unauthorized"))
    ensures user.Some? && ExtractRecipients(field, file).Failure? ==>
              response == ErrorResponse(ExtractRecipients(field, file).error)
    ensures user.None? || ExtractRecipients(field, file).Failure? ==>
              repo.db.logs == old(repo.db.logs) && queue.jobs == old(queue.jobs)
    ensures user.Some? && ExtractRecipients(field, file).Success? &&
            old(ValidateUserAndTemplate(repo, user.value, templateId, lookups)).Fail? ==>
              response == ErrorResponse(old(ValidateUserAndTemplate(repo, user.value, templateId, lookups)).error)
    ensures user.Some? && ExtractRecipients(field, file).Success? &&
            old(ValidateUserAndTemplate(repo, user.value, templateId, lookups)) == Pass &&
            ValidEmails(ExtractRecipients(field, file).value, isEmail) == [] ==>
              response == Response(400, ErrorBody("No valid email addresses found"))
    ensures response.status == 200 <==>
              && user.Some? && ExtractRecipients(field, file).Success?
              && old(ValidateUserAndTemplate(repo, user.value, templateId, lookups)) == Pass
              && ValidEmails(ExtractRecipients(field, file).value, isEmail) != []
    ensures response.status == 200 ==>
              var emails := ExtractRecipients(field, file).value;
              response.body == QueuedBody("Emails queued successfully", |emails|,
                                          |ValidEmails(emails, isEmail)|, InvalidEmails(emails, isEmail),
                                          SourceAsWritten(field))
  {
    if user.None? {
      return Response(401, ErrorBody("Unauthorized"));
    }
    var extracted := ExtractRecipients(field, file);
    if extracted.Failure? {
      return ErrorResponse(extracted.error);
    }
    var emails := extracted.value;
    var result, _, _ := QueueBulkEmails(repo, queue, sockets, user.value, emails, templateId, subject, body,
                                        isEmail, lookups, insertFault, enqueueFault, emitFault);
    match result
    case Failure(err) =>
      response := ErrorResponse(err);
    case Success(summary) =>
      response := Response(200, QueuedBody("Emails queued successfully", summary.total, summary.valid,
                                           summary.invalid, SourceAsWritten(field)));
  }
}
