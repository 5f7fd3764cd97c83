/**
 * The CSV import view (`import_transactions` in core/base/views.py). A POST
 * names a CSV mapping and carries a file; the view decodes the file, strips
 * trailing delimiter characters from every line, parses the table, builds one
 * transaction per row from the mapping's columns, and stores them all with one
 * bulk insert. Any exception yields status 500 and stores nothing; any other
 * request method yields status 405.
 *
 * Decoding, `pandas.read_csv`, `datetime.strptime`, `float` and the database
 * insert are library code: they are the parameters bundled in `Library`.
 */
module CsvImport {
  import opened Wrappers
  import opened Text
  import opened Calendar

  /** A column label: a header name, or a position when the file has no header row. */
  datatype Column = Named(name: string) | Position(index: nat)

  /** A parsed row after `fillna('').astype(str)`: every present cell is a string, an empty cell is "". */
  type Row = map<Column, string>

  /** The `mapping_json` of a CSV mapping. */
  datatype CsvMapping = CsvMapping(
    encoding: Option<string>,
    header: Option<int>,
    delimiter: Option<string>,
    /** The column configured for each transaction field, keyed by the field's name. */
    columns: map<string, Column>,
    /** The `other_note` columns; `[]` when the key is absent. */
    otherNote: seq<Column>,
    bankAccount: Option<nat>)

  datatype Transaction = Transaction(
    originalId: Option<string>,
    dateOfSubmission: Option<Date>,
    dateOfTransaction: Option<Date>,
    amount: Option<real>,
    currency: Option<string>,
    bankAccount: nat,
    myNote: Option<string>,
    otherNote: string,
    counterpartyNote: Option<string>,
    constantSymbol: Option<string>,
    specificSymbol: Option<string>,
    variableSymbol: Option<string>,
    transactionType: Option<string>,
    counterpartyAccountNumber: Option<string>,
    counterpartyBankCode: Option<string>,
    counterpartyName: Option<string>)

  /** The exceptions the view turns into status 500. */
  datatype ImportError =
    | MappingDoesNotExist      // `CSVMapping.objects.get` with an unknown or missing id
    | NoFile                   // `None.read()` when no file was uploaded
    | DecodeFailed             // `bytes.decode(encoding)` raised
    | CsvParseFailed           // `pd.read_csv` raised
    | BadDate(cell: string)    // `datetime.strptime` raised on a non-empty cell
    | AmountNotText            // `float(None)`: the amount column is absent from the row
    | BankAccountDoesNotExist  // `BankAccount.objects.get` with an unknown or missing id
    | StoreFailed              // `bulk_create` raised

  datatype ResponseBody = Imported | Failed(error: ImportError) | InvalidMethod

  datatype Response = Response(status: int, body: ResponseBody)

  datatype Request = Request(httpMethod: string, mappingId: Option<nat>, csvFile: Option<seq<bv8>>)

  /** The library calls the view makes, as functions of their arguments; `None` means the call raised. */
  datatype Library = Library(
    decode: (seq<bv8>, Option<string>) -> Option<string>,
    readCsv: (string, Option<int>, Option<string>) -> Option<seq<Row>>,
    strptime: (string, string) -> Option<Date>,
    toFloat: string -> Option<real>,
    bulkCreate: seq<Transaction> -> bool)

  /** `float("")` raises `ValueError`, as it does in Python. */
  predicate FloatRejectsEmpty(lib: Library) {
    lib.toFloat("") == None
  }

  const DateFormat := "%d.%m.%Y"

  // ---------------------------------------------------------------------------
  // Cleaning the raw text
  // ---------------------------------------------------------------------------

  /** The characters `line.rstrip(delimiter)` removes: whitespace when the delimiter is unset. */
  function TrailingChars(delimiter: Option<string>): char -> bool {
    if delimiter.None? then IsSpace else c => c in delimiter.value
  }

  function CleanLines(lines: seq<string>, delimiter: Option<string>): (r: seq<string>)
    ensures |r| == |lines|
  {
    seq(|lines|, k requires 0 <= k < |lines| => RStripBy(lines[k], TrailingChars(delimiter)))
  }

  /** `"\n".join(line.rstrip(delimiter) for line in raw_data.splitlines())`. */
  function CleanData(raw: string, delimiter: Option<string>): string {
    Join("\n", CleanLines(SplitLines(raw), delimiter))
  }

  /**
   * Each cleaned line is its raw line with the trailing delimiter characters
   * removed and nothing else changed: a prefix of the raw line, what was cut
   * consists of delimiter characters only, and it does not itself end in one.
   * No cleaned line holds a line break.
   */
  lemma CleanLinesSpec(raw: string, delimiter: Option<string>, k: nat)
    requires k < |SplitLines(raw)|
    ensures var line, cleaned := SplitLines(raw)[k], CleanLines(SplitLines(raw), delimiter)[k];
      && |cleaned| <= |line| && cleaned == line[..|cleaned|]
      && (forall i :: |cleaned| <= i < |line| ==> TrailingChars(delimiter)(line[i]))
      && (cleaned == [] || !TrailingChars(delimiter)(cleaned[|cleaned| - 1]))
      && HasNoLineBreak(cleaned)
  {
    var line := SplitLines(raw)[k];
    RStripBySpec(line, TrailingChars(delimiter));
    SplitLinesFromNoBreaks(raw, "");
  }

  // ---------------------------------------------------------------------------
  // One row
  // ---------------------------------------------------------------------------

  /** `row.get(csv_map.get(field))`: `None` when the field has no column or the row lacks it. */
  function Cell(row: Row, mapping: CsvMapping, field: string): Option<string> {
    if field in mapping.columns && mapping.columns[field] in row then Some(row[mapping.columns[field]]) else None
  }

  /** A date cell: empty or absent gives `None`, anything else goes through `strptime` with `DateFormat`. */
  function ParseDateCell(cell: Option<string>, lib: Library): Result<Option<Date>, ImportError> {
    if cell.None? || cell.value == "" then Ok(None)
    else
      match lib.strptime(cell.value, DateFormat)
      case None => Err(BadDate(cell.value))
      case Some(d) => Ok(Some(d))
  }

  /**
   * The amount cell: commas become dots, then `float`; its `ValueError` is
   * caught and gives `None`, but an absent cell reaches `float(None)`, whose
   * `TypeError` is not caught.
   */
  function ParseAmount(cell: Option<string>, lib: Library): Result<Option<real>, ImportError> {
    if cell.None? then Err(AmountNotText)
    else Ok(lib.toFloat(ReplaceChar(cell.value, ',', '.')))
  }

  /** The `other_note` cells, an absent column giving "". */
  function OtherNoteParts(row: Row, columns: seq<Column>): seq<string> {
    seq(|columns|, i requires 0 <= i < |columns| => if columns[i] in row then row[columns[i]] else "")
  }

  /** `" ".join(...)` of the `other_note` cells, stripped. */
  function OtherNote(row: Row, columns: seq<Column>): string {
    Strip(Join(" ", OtherNoteParts(row, columns)))
  }

  /**
   * The body of the row loop. Exceptions arise in the order of the source:
   * the submission date, the transaction date, the amount, then the bank
   * account lookup.
   */
  function ExtractRow(mapping: CsvMapping, bankAccounts: set<nat>, row: Row, lib: Library): Result<Transaction, ImportError> {
    var submitted := ParseDateCell(Cell(row, mapping, "date_of_submission"), lib);
    var transacted := ParseDateCell(Cell(row, mapping, "date_of_transaction"), lib);
    var amount := ParseAmount(Cell(row, mapping, "amount"), lib);
    if submitted.Err? then Err(submitted.error)
    else if transacted.Err? then Err(transacted.error)
    else if amount.Err? then Err(amount.error)
    else if mapping.bankAccount.None? || mapping.bankAccount.value !in bankAccounts then Err(BankAccountDoesNotExist)
    else
      Ok(Transaction(
        originalId := Cell(row, mapping, "original_id"),
        dateOfSubmission := submitted.value,
        dateOfTransaction := transacted.value,
        amount := amount.value,
        currency := Cell(row, mapping, "currency"),
        bankAccount := mapping.bankAccount.value,
        myNote := Cell(row, mapping, "my_note"),
        otherNote := OtherNote(row, mapping.otherNote),
        counterpartyNote := Cell(row, mapping, "counterparty_note"),
        constantSymbol := Cell(row, mapping, "constant_symbol"),
        specificSymbol := Cell(row, mapping, "specific_symbol"),
        variableSymbol := Cell(row, mapping, "variable_symbol"),
        transactionType := Cell(row, mapping, "transaction_type"),
        counterpartyAccountNumber := Cell(row, mapping, "counterparty_account_number"),
        counterpartyBankCode := Cell(row, mapping, "counterparty_bank_code"),
        counterpartyName := Cell(row, mapping, "counterparty_name")))
  }

  /** A date is `None` exactly when its cell is empty or absent; otherwise it is what `strptime` gives, or an error. */
  lemma DateCellSpec(cell: Option<string>, lib: Library)
    ensures ParseDateCell(cell, lib) == Ok(None) <==> cell.None? || cell.value == ""
    ensures ParseDateCell(cell, lib).Err? <==>
              cell.Some? && cell.value != "" && lib.strptime(cell.value, DateFormat).None?
    ensures forall d :: ParseDateCell(cell, lib) == Ok(Some(d)) ==> lib.strptime(cell.value, DateFormat) == Some(d)
  {
  }

  /**
   * A present amount cell never fails: the text `float` sees is the cell with
   * every comma turned into a dot and nothing else changed, and an empty cell
   * gives `None`. Only an absent cell fails.
   */
  lemma AmountSpec(cell: Option<string>, lib: Library)
    ensures ParseAmount(cell, lib).Err? <==> cell.None?
    ensures cell.Some? ==> exists t: string ::
              && ParseAmount(cell, lib) == Ok(lib.toFloat(t))
              && |t| == |cell.value| && ',' !in t
              && (forall i :: 0 <= i < |t| ==> t[i] == (if cell.value[i] == ',' then '.' else cell.value[i]))
    ensures FloatRejectsEmpty(lib) && cell == Some("") ==> ParseAmount(cell, lib) == Ok(None)
  {
    if cell.Some? {
      var t := ReplaceChar(cell.value, ',', '.');
      assert forall i :: 0 <= i < |t| ==> t[i] != ',';
      assert ParseAmount(cell, lib) == Ok(lib.toFloat(t));
    }
  }

  /**
   * `other_note` is the space-joined cells with only the whitespace at
   * either end cut off: it has no surrounding whitespace, it equals the join
   * when that has none to strip, and with no columns configured it is "".
   */
  lemma OtherNoteSpec(row: Row, columns: seq<Column>)
    ensures var joined, note := Join(" ", OtherNoteParts(row, columns)), OtherNote(row, columns);
      && (exists i, j :: 0 <= i <= j <= |joined| && note == joined[i..j]
            && (forall k :: 0 <= k < i ==> IsSpace(joined[k]))
            && (forall k :: j <= k < |joined| ==> IsSpace(joined[k])))
      && (note == [] || (!IsSpace(note[0]) && !IsSpace(note[|note| - 1])))
      && ((joined == [] || (!IsSpace(joined[0]) && !IsSpace(joined[|joined| - 1]))) ==> note == joined)
    ensures columns == [] ==> OtherNote(row, columns) == ""
  {
    StripSpec(Join(" ", OtherNoteParts(row, columns)));
  }

  /**
   * A successful row copies every configured text cell unchanged, `None` when
   * the field has no column or the row lacks it (so there is no default
   * currency, and the counterparty account number and bank code go into
   * their own fields); the dates and the amount are the parsed cells, the
   * other note is built from the `other_note` columns, and the bank account
   * is the mapping's, which exists.
   */
  lemma ExtractRowCopiesCells(mapping: CsvMapping, bankAccounts: set<nat>, row: Row, lib: Library)
    requires ExtractRow(mapping, bankAccounts, row, lib).Ok?
    ensures var t := ExtractRow(mapping, bankAccounts, row, lib).value;
      && t.originalId == Cell(row, mapping, "original_id")
      && t.currency == Cell(row, mapping, "currency")
      && t.myNote == Cell(row, mapping, "my_note")
      && t.counterpartyNote == Cell(row, mapping, "counterparty_note")
      && t.constantSymbol == Cell(row, mapping, "constant_symbol")
      && t.specificSymbol == Cell(row, mapping, "specific_symbol")
      && t.variableSymbol == Cell(row, mapping, "variable_symbol")
      && t.transactionType == Cell(row, mapping, "transaction_type")
      && t.counterpartyAccountNumber == Cell(row, mapping, "counterparty_account_number")
      && t.counterpartyBankCode == Cell(row, mapping, "counterparty_bank_code")
      && t.counterpartyName == Cell(row, mapping, "counterparty_name")
      && t.otherNote == OtherNote(row, mapping.otherNote)
      && mapping.bankAccount == Some(t.bankAccount) && t.bankAccount in bankAccounts
      && Ok(t.dateOfSubmission) == ParseDateCell(Cell(row, mapping, "date_of_submission"), lib)
      && Ok(t.dateOfTransaction) == ParseDateCell(Cell(row, mapping, "date_of_transaction"), lib)
      && (t.dateOfSubmission.None? <==> Cell(row, mapping, "date_of_submission") in {None, Some("")})
      && (t.dateOfTransaction.None? <==> Cell(row, mapping, "date_of_transaction") in {None, Some("")})
      && Ok(t.amount) == ParseAmount(Cell(row, mapping, "amount"), lib)
      && Cell(row, mapping, "amount").Some?
  {
  }

  // ---------------------------------------------------------------------------
  // All rows
  // ---------------------------------------------------------------------------

  /** Results taken in order, stopping at the first error: a loop whose body may raise. */
  function Collect<T, E>(rs: seq<Result<T, E>>): Result<seq<T>, E> {
    if rs == [] then Ok([])
    else
      match Collect(rs[..|rs| - 1])
      case Err(e) => Err(e)
      case Ok(ts) =>
        match rs[|rs| - 1]
        case Err(e) => Err(e)
        case Ok(t) => Ok(ts + [t])
  }

  lemma {:induction false} CollectOk<T, E>(rs: seq<Result<T, E>>)
    requires Collect(rs).Ok?
    ensures |Collect(rs).value| == |rs|
    ensures forall i :: 0 <= i < |rs| ==> rs[i] == Ok(Collect(rs).value[i])
  {
    if rs != [] {
      var init := rs[..|rs| - 1];
      CollectOk(init);
      var ts := Collect(rs).value;
      assert ts[..|ts| - 1] == Collect(init).value;
      forall i | 0 <= i < |init|
        ensures rs[i] == Ok(ts[i])
      {
        assert rs[i] == init[i];
      }
    }
  }

  lemma {:induction false} CollectFirstError<T, E>(rs: seq<Result<T, E>>)
    requires Collect(rs).Err?
    ensures exists i :: 0 <= i < |rs| && rs[i] == Err(Collect(rs).error) && (forall j :: 0 <= j < i ==> rs[j].Ok?)
  {
    var init := rs[..|rs| - 1];
    if Collect(init).Err? {
      CollectFirstError(init);
      var i :| 0 <= i < |init| && init[i] == Err(Collect(init).error) && (forall j :: 0 <= j < i ==> init[j].Ok?);
      assert forall j :: 0 <= j <= i ==> rs[j] == init[j];
    } else {
      CollectOk(init);
      assert forall j :: 0 <= j < |init| ==> rs[j] == init[j];
    }
  }

  /** Once a prefix fails, the whole fails with the same error. */
  lemma {:induction false} CollectStopsAtError<T, E>(rs: seq<Result<T, E>>, k: nat)
    requires k <= |rs| && Collect(rs[..k]).Err?
    ensures Collect(rs) == Collect(rs[..k])
    decreases |rs| - k
  {
    if k == |rs| {
      assert rs[..k] == rs;
    } else {
      var init := rs[..|rs| - 1];
      assert init[..k] == rs[..k];
      CollectStopsAtError(init, k);
    }
  }

  /** The outcome of the loop body for each row. */
  function ExtractAll(mapping: CsvMapping, bankAccounts: set<nat>, rows: seq<Row>, lib: Library): (rs: seq<Result<Transaction, ImportError>>)
    ensures |rs| == |rows|
  {
    seq(|rows|, i requires 0 <= i < |rows| => ExtractRow(mapping, bankAccounts, rows[i], lib))
  }

  /** The row loop: one transaction per row in row order, the first exception ending it. */
  function BuildAll(mapping: CsvMapping, bankAccounts: set<nat>, rows: seq<Row>, lib: Library): Result<seq<Transaction>, ImportError> {
    Collect(ExtractAll(mapping, bankAccounts, rows, lib))
  }

  /**
   * The loop succeeds iff every row does, and then it holds exactly one
   * transaction per row, in row order; when it fails, the error is that of
   * the first failing row.
   */
  lemma BuildAllSpec(mapping: CsvMapping, bankAccounts: set<nat>, rows: seq<Row>, lib: Library)
    ensures BuildAll(mapping, bankAccounts, rows, lib).Ok? <==>
              forall i :: 0 <= i < |rows| ==> ExtractRow(mapping, bankAccounts, rows[i], lib).Ok?
    ensures BuildAll(mapping, bankAccounts, rows, lib).Ok? ==>
              var ts := BuildAll(mapping, bankAccounts, rows, lib).value;
              && |ts| == |rows|
              && forall i :: 0 <= i < |rows| ==> ExtractRow(mapping, bankAccounts, rows[i], lib) == Ok(ts[i])
    ensures BuildAll(mapping, bankAccounts, rows, lib).Err? ==>
              exists i :: && 0 <= i < |rows|
                          && ExtractRow(mapping, bankAccounts, rows[i], lib) == Err(BuildAll(mapping, bankAccounts, rows, lib).error)
                          && (forall j :: 0 <= j < i ==> ExtractRow(mapping, bankAccounts, rows[j], lib).Ok?)
  {
    var rs := ExtractAll(mapping, bankAccounts, rows, lib);
    assert forall i :: 0 <= i < |rows| ==> rs[i] == ExtractRow(mapping, bankAccounts, rows[i], lib);
    if Collect(rs).Ok? {
      CollectOk(rs);
    } else {
      CollectFirstError(rs);
      var i :| 0 <= i < |rs| && rs[i] == Err(Collect(rs).error) && (forall j :: 0 <= j < i ==> rs[j].Ok?);
      assert ExtractRow(mapping, bankAccounts, rows[i], lib) == Err(BuildAll(mapping, bankAccounts, rows, lib).error);
      assert forall j :: 0 <= j < i ==> ExtractRow(mapping, bankAccounts, rows[j], lib).Ok?;
    }
  }

  /** A file with no rows never looks up the bank account: it succeeds even when that account does not exist. */
  lemma NoRowsNoBankAccountLookup(mapping: CsvMapping, bankAccounts: set<nat>, lib: Library)
    ensures BuildAll(mapping, bankAccounts, [], lib) == Ok([])
  {
  }

  /** With an unknown bank account, every file with at least one row fails. */
  lemma UnknownBankAccountFailsEveryRow(mapping: CsvMapping, bankAccounts: set<nat>, rows: seq<Row>, lib: Library)
    requires mapping.bankAccount.None? || mapping.bankAccount.value !in bankAccounts
    requires rows != []
    ensures BuildAll(mapping, bankAccounts, rows, lib).Err?
  {
    var rs := ExtractAll(mapping, bankAccounts, rows, lib);
    if Collect(rs).Ok? {
      CollectOk(rs);
      assert rs[0].Ok?;
    }
  }

  // ---------------------------------------------------------------------------
  // The whole request
  // ---------------------------------------------------------------------------

  /** The transactions a POST creates, or the exception it turns into status 500. */
  function Import(mappings: map<nat, CsvMapping>, bankAccounts: set<nat>, request: Request, lib: Library): Result<seq<Transaction>, ImportError> {
    if request.mappingId.None? || request.mappingId.value !in mappings then Err(MappingDoesNotExist)
    else if request.csvFile.None? then Err(NoFile)
    else
      var mapping := mappings[request.mappingId.value];
      match lib.decode(request.csvFile.value, mapping.encoding)
      case None => Err(DecodeFailed)
      case Some(raw) =>
        match lib.readCsv(CleanData(raw, mapping.delimiter), mapping.header, mapping.delimiter)
        case None => Err(CsvParseFailed)
        case Some(rows) =>
          match BuildAll(mapping, bankAccounts, rows, lib)
          case Err(e) => Err(e)
          case Ok(ts) => if lib.bulkCreate(ts) then Ok(ts) else Err(StoreFailed)
  }

  /** The transaction table, with the mappings and bank accounts the view looks up. */
  class TransactionStore {
    var transactions: seq<Transaction>
    const mappings: map<nat, CsvMapping>
    const bankAccounts: set<nat>

    constructor (mappings: map<nat, CsvMapping>, bankAccounts: set<nat>)
      ensures transactions == [] && this.mappings == mappings && this.bankAccounts == bankAccounts
    {
      transactions := [];
      this.mappings := mappings;
      this.bankAccounts := bankAccounts;
    }

    /**
     * `import_transactions`: a request that is not a POST gets 405; a POST
     * gets 201 and appends one transaction per row, or gets 500 with the
     * exception and leaves the table as it was.
     */
    method ImportTransactions(request: Request, lib: Library) returns (response: Response)
      modifies this
      ensures request.httpMethod != "POST" ==> response == Response(405, InvalidMethod) && transactions == old(transactions)
      ensures request.httpMethod == "POST" ==>
                match Import(mappings, bankAccounts, request, lib)
                case Ok(created) => response == Response(201, Imported) && transactions == old(transactions) + created
                case Err(e) => response == Response(500, Failed(e)) && transactions == old(transactions)
    {
      if request.httpMethod != "POST" {
        return Response(405, InvalidMethod);
      }
      if request.mappingId.None? || request.mappingId.value !in mappings {
        return Response(500, Failed(MappingDoesNotExist));
      }
      var mapping := mappings[request.mappingId.value];
      if request.csvFile.None? {
        return Response(500, Failed(NoFile));
      }
      var raw := lib.decode(request.csvFile.value, mapping.encoding);
      if raw.None? {
        return Response(500, Failed(DecodeFailed));
      }
      var cleaned := CleanData(raw.value, mapping.delimiter);
      var table := lib.readCsv(cleaned, mapping.header, mapping.delimiter);
      if table.None? {
        return Response(500, Failed(CsvParseFailed));
      }
      var rows := table.value;
      ghost var results := ExtractAll(mapping, bankAccounts, rows, lib);
      var built: seq<Transaction> := [];
      for i := 0 to |rows|
        invariant Collect(results[..i]) == Ok(built)
      {
        assert results[..i + 1][..i] == results[..i];
        var t := ExtractRow(mapping, bankAccounts, rows[i], lib);
        if t.Err? {
          CollectStopsAtError(results, i + 1);
          return Response(500, Failed(t.error));
        }
        built := built + [t.value];
      }
      assert results[..|rows|] == results;
      if !lib.bulkCreate(built) {
        return Response(500, Failed(StoreFailed));
      }
      transactions := transactions + built;
      response := Response(201, Imported);
    }
  }

  /** A successful import creates exactly one transaction per parsed row, in row order. */
  lemma ImportOneTransactionPerRow(mappings: map<nat, CsvMapping>, bankAccounts: set<nat>, request: Request, lib: Library)
    requires Import(mappings, bankAccounts, request, lib).Ok?
    ensures request.mappingId.Some? && request.mappingId.value in mappings && request.csvFile.Some?
    ensures var mapping := mappings[request.mappingId.value];
      var raw := lib.decode(request.csvFile.value, mapping.encoding);
      && raw.Some?
      && var rows := lib.readCsv(CleanData(raw.value, mapping.delimiter), mapping.header, mapping.delimiter);
      && rows.Some?
      && var created := Import(mappings, bankAccounts, request, lib).value;
      && |created| == |rows.value|
      && forall i :: 0 <= i < |created| ==> ExtractRow(mapping, bankAccounts, rows.value[i], lib) == Ok(created[i])
  {
    var mapping := mappings[request.mappingId.value];
    var raw := lib.decode(request.csvFile.value, mapping.encoding);
    var rows := lib.readCsv(CleanData(raw.value, mapping.delimiter), mapping.header, mapping.delimiter);
    BuildAllSpec(mapping, bankAccounts, rows.value, lib);
  }
}
