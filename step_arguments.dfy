/**
 * Dispatch of a pickle step argument to one of two handlers
 * (src/cucumber/stepArguments.ts).
 *
 * A pickle step argument carries an optional data table and an optional doc
 * string. The data table is checked first; with neither present the call
 * throws.
 */
module StepArguments {
  import opened Wrappers

  /** A Gherkin data table: rows of cells. */
  datatype PickleTable = PickleTable(rows: seq<seq<string>>)

  /** A Gherkin doc string with its optional media type. */
  datatype PickleDocString = PickleDocString(content: string, mediaType: Option<string>)

  /** Both fields are optional; a missing one is None. */
  datatype PickleStepArgument = PickleStepArgument(
    dataTable: Option<PickleTable>,
    docString: Option<PickleDocString>)

  /** The handler map: one callback per kind of argument. */
  datatype ArgumentMapping<T> = ArgumentMapping(
    dataTable: PickleTable -> T,
    docString: PickleDocString -> T)

  /** The error thrown for an argument that holds neither field; it names the argument. */
  datatype ParseError = UnknownStepArgument(arg: PickleStepArgument)

  function ParseStepArgument<T>(arg: PickleStepArgument, mapping: ArgumentMapping<T>): (r: Result<T, ParseError>)
    ensures arg.dataTable.Some? ==> r == Success(mapping.dataTable(arg.dataTable.value))
    ensures arg.dataTable.None? && arg.docString.Some? ==> r == Success(mapping.docString(arg.docString.value))
    ensures r.Failure? <==> arg.dataTable.None? && arg.docString.None?
    ensures r.Failure? ==> r.error == UnknownStepArgument(arg)
  {
    if arg.dataTable.Some? then
      Success(mapping.dataTable(arg.dataTable.value))
    else if arg.docString.Some? then
      Success(mapping.docString(arg.docString.value))
    else
      Failure(UnknownStepArgument(arg))
  }

  /**
   * When a data table is present the doc-string handler is never consulted:
   * two mappings that agree on the data-table handler give the same result,
   * whatever their doc-string handlers do, even if a doc string is present.
   */
  lemma DataTableWins<T>(arg: PickleStepArgument, m1: ArgumentMapping<T>, m2: ArgumentMapping<T>)
    requires arg.dataTable.Some?
    requires m1.dataTable == m2.dataTable
    ensures ParseStepArgument(arg, m1) == ParseStepArgument(arg, m2)
  {
  }

  /** Without a data table, the data-table handler is never consulted. */
  lemma DocStringIgnoresDataTableHandler<T>(arg: PickleStepArgument, m1: ArgumentMapping<T>, m2: ArgumentMapping<T>)
    requires arg.dataTable.None?
    requires m1.docString == m2.docString
    ensures ParseStepArgument(arg, m1) == ParseStepArgument(arg, m2)
  {
  }
}
