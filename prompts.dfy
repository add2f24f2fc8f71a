/** The text given to the model: the schema summary and the choice between
    the first-attempt prompt and the repair prompt. */
module Prompts {
  import opened Outcomes
  import opened Text
  import opened Database

  /** The line that describes one table. */
  function SchemaLine(t: TableInfo): string {
    "Table " + t.table + " columns: " + Join(", ", t.columns)
  }

  /** The table lines, one per table, in schema order. */
  function SchemaLines(schema: Schema): (lines: seq<string>)
    ensures |lines| == |schema|
    ensures forall i :: 0 <= i < |schema| ==> lines[i] == SchemaLine(schema[i])
  {
    seq(|schema|, i requires 0 <= i < |schema| => SchemaLine(schema[i]))
  }

  /** The schema summary: the table lines joined by line feeds. */
  function SchemaInfo(schema: Schema): string {
    Join("\n", SchemaLines(schema))
  }

  /** No table or column name holds a line feed. */
  predicate SingleLineNames(schema: Schema) {
    forall i :: 0 <= i < |schema| ==>
      '\n' !in schema[i].table && forall j :: 0 <= j < |schema[i].columns| ==> '\n' !in schema[i].columns[j]
  }

  /** A joined text holds a character only if the separator or a part does. */
  lemma {:induction false} JoinFree(sep: string, xs: seq<string>, c: char)
    requires c !in sep
    requires forall i :: 0 <= i < |xs| ==> c !in xs[i]
    ensures c !in Join(sep, xs)
    decreases |xs|
  {
    if |xs| > 1 {
      JoinFree(sep, xs[1..], c);
    }
  }

  /** The summary of a schema with single-line names reads back as exactly
      one line per table, in order, each naming its table and then its
      columns; an empty schema gives an empty summary. */
  lemma SchemaInfoLines(schema: Schema)
    requires SingleLineNames(schema)
    ensures schema == [] ==> SchemaInfo(schema) == []
    ensures schema != [] ==> Split(SchemaInfo(schema), '\n') == SchemaLines(schema)
    ensures forall i :: 0 <= i < |schema| ==>
      StartsWith(SchemaLines(schema)[i], "Table " + schema[i].table + " columns: ")
  {
    var lines := SchemaLines(schema);
    forall i | 0 <= i < |lines| ensures '\n' !in lines[i] {
      JoinFree(", ", schema[i].columns, '\n');
      assert lines[i] == "Table " + schema[i].table + " columns: " + Join(", ", schema[i].columns);
    }
    if schema != [] {
      SplitJoin(lines, '\n');
    }
    forall i | 0 <= i < |schema|
      ensures StartsWith(lines[i], "Table " + schema[i].table + " columns: ")
    {
      var head := "Table " + schema[i].table + " columns: ";
      assert lines[i] == head + Join(", ", schema[i].columns);
      assert lines[i][..|head|] == head;
    }
  }

  /** The two prompts: the first attempt's, and the repair prompt that
      carries the previous error. */
  datatype Prompt =
    | FirstAttempt(question: string, schemaInfo: string)
    | Repair(error: string, question: string, schemaInfo: string)

  /** The retry flag and a non-empty previous error select the repair prompt;
      `None` and the empty message count as no error. */
  function SelectPrompt(question: string, schemaInfo: string, isRetry: bool, lastError: Option<string>): (p: Prompt)
    ensures p.Repair? <==> isRetry && lastError.Some? && lastError.value != ""
    ensures p.Repair? ==> p.error == lastError.value
    ensures p.question == question && p.schemaInfo == schemaInfo
  {
    if isRetry && lastError.Some? && lastError.value != "" then Repair(lastError.value, question, schemaInfo)
    else FirstAttempt(question, schemaInfo)
  }

  /** The indentation the prompt literals carry on every line. */
  const Indent: string := "            "

  /** How the repair prompt opens, up to the error text. */
  const RepairOpening: string := "\n" + Indent + "The previous SQL query failed with error: "

  /** How the first-attempt prompt opens. */
  const FirstOpening: string := "\n" + Indent + "Convert this natural language question into a SQL query for SQLite:\n"

  /** How both prompts close. */
  const Closing: string := "\n" + Indent + "\n" + Indent +
    "Return ONLY the SQL query with no additional explanation or formatting.\n" + Indent

  /** The first-attempt prompt between its opening and its closing. */
  function FirstBody(question: string, schemaInfo: string): string {
    Indent + "Question: " + question + "\n" + Indent + "Database schema:\n" + Indent + schemaInfo
  }

  /** The repair prompt between the quoted error and its closing. */
  function RepairBody(question: string, schemaInfo: string): string {
    "\n" + Indent + "Please correct the SQL query for this question: " + question + "\n" +
    Indent + "Database schema:\n" + Indent + schemaInfo
  }

  /** The prompt text sent to the model. */
  function PromptText(p: Prompt): string {
    match p
    case FirstAttempt(question, schemaInfo) => FirstOpening + FirstBody(question, schemaInfo) + Closing
    case Repair(error, question, schemaInfo) => RepairOpening + error + RepairBody(question, schemaInfo) + Closing
  }

  /** The repair prompt quotes the previous error verbatim right after its
      opening. */
  lemma RepairQuotesError(error: string, question: string, schemaInfo: string)
    ensures var text := PromptText(Repair(error, question, schemaInfo));
      text[|RepairOpening|..|RepairOpening| + |error|] == error
  {
    var text := PromptText(Repair(error, question, schemaInfo));
    assert text == RepairOpening + error + (RepairBody(question, schemaInfo) + Closing);
  }

  /** Both prompts end with the same instruction to return only the query. */
  lemma PromptClosing(p: Prompt)
    ensures var text := PromptText(p);
      |Closing| <= |text| && text[|text| - |Closing|..] == Closing
  {
    var text := PromptText(p);
    var head := if p.FirstAttempt? then FirstOpening + FirstBody(p.question, p.schemaInfo)
      else RepairOpening + p.error + RepairBody(p.question, p.schemaInfo);
    assert text == head + Closing;
  }
}
