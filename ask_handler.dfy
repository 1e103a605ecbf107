/**
 * The `POST /api/ask/` handler (backend/api/views.py, `AskQuestionAPIView.post`).
 * The language model and the database are parameters: `complete` answers a prompt with
 * the reply text, `execute` runs a statement and yields the cursor's column names and
 * rows, `summarize` answers the explanation request for a result. Each yields Err with
 * `str(e)` when the call raises. The handler also returns the external calls it made.
 */
module AskHandler {
  import opened Wrappers
  import opened SqlExtraction
  import opened RowAssembly
  import opened SchemaText

  /** A response body: `{"error": ...}` or `{"sql": ..., "result": ..., "explanation": ...}`. */
  datatype Body<V> =
    | ErrorBody(error: string)
    | AnswerBody(sql: string, result: seq<Dict<V>>, explanation: string)

  datatype Response<V> = Response(status: int, body: Body<V>)

  /** What the cursor yields after `execute`: the column names of `cursor.description`
      (None when the statement returns no result set) and the fetched rows. */
  datatype QueryOutput<V> = QueryOutput(description: Option<seq<string>>, rows: seq<seq<V>>)

  /** The calls the handler makes to the database and the language model, in order. */
  datatype Call<V> =
    | FetchSchema
    | CompleteSql(prompt: string)
    | Execute(sql: string)
    | Summarize(result: seq<Dict<V>>)

  const QuestionRequired: string := "Question is required."
  const NoSqlFound: string := "Could not extract a valid SQL query."
  /** `str(e)` for iterating over a `cursor.description` of None. */
  const NoneNotIterable: string := "'NoneType' object is not iterable"

  /** `not question` is false: the field is present, not null, and not empty. */
  predicate HasQuestion(question: Option<string>) {
    question.Some? && question.value != ""
  }

  /** The fixed text of the statement prompt around the schema and the question. */
  const PromptIntro: string := "\nUse the following MySQL schema to write a valid SQL SELECT query.\n\n"
  const PromptQuestion: string := "\n\nConvert this natural language question into a valid MySQL SELECT query:\n\""
  const PromptOutro: string := "\"\n\nOnly output the raw SQL query. Do not explain anything.\n"

  /** The prompt asking the model for a SELECT statement. */
  function SqlPrompt(schema: string, question: string): string {
    PromptIntro + schema + PromptQuestion + question + PromptOutro
  }

  /** The statement prompt for a submitted question. */
  function PromptOf(listing: Result<seq<TableListing>, string>, question: Option<string>): string
    requires HasQuestion(question)
  {
    SqlPrompt(SchemaOf(listing), question.value)
  }

  /** The statement extracted from the model's reply, when the model answered and the
      reply holds one. */
  function SqlOf(reply: Result<string, string>): Option<string> {
    if reply.Err? then None else ExtractSql(reply.value)
  }

  /** The first half of the handler: fetching the schema, filling in the prompt and
      asking the model for a statement. */
  method RequestSql(listing: Result<seq<TableListing>, string>, question: string,
                    complete: string -> Result<string, string>)
    returns (prompt: string, reply: Result<string, string>)
    ensures prompt == SqlPrompt(SchemaOf(listing), question) && reply == complete(prompt)
  {
    var schema := GetMysqlSchema(listing);
    prompt := SqlPrompt(schema, question);
    reply := complete(prompt);
  }

  /** `AskQuestionAPIView.post`: the response and the external calls made, in order. */
  method Post<V>(
    question: Option<string>,
    listing: Result<seq<TableListing>, string>,
    complete: string -> Result<string, string>,
    execute: string -> Result<QueryOutput<V>, string>,
    summarize: seq<Dict<V>> -> Result<string, string>)
    returns (resp: Response<V>, calls: seq<Call<V>>)
    // A missing or empty question is refused before anything else happens.
    ensures !HasQuestion(question) ==> resp == Response(400, ErrorBody(QuestionRequired)) && calls == []
    // Otherwise the schema is fetched and the model asked for a statement.
    ensures HasQuestion(question) ==>
      |calls| >= 2 && calls[..2] == [FetchSchema, CompleteSql(PromptOf(listing, question))]
    // The model call raised.
    ensures HasQuestion(question) && complete(PromptOf(listing, question)).Err? ==>
      resp == Response(500, ErrorBody(complete(PromptOf(listing, question)).error)) && |calls| == 2
    // The reply holds no statement: nothing is executed.
    ensures (HasQuestion(question) && complete(PromptOf(listing, question)).Ok?
             && SqlOf(complete(PromptOf(listing, question))).None?) ==>
      resp == Response(400, ErrorBody(NoSqlFound)) && |calls| == 2
    // Only the extracted statement is ever executed, and it is executed when there is one.
    ensures |calls| > 2 <==> HasQuestion(question) && SqlOf(complete(PromptOf(listing, question))).Some?
    ensures |calls| > 2 ==> calls[2] == Execute(SqlOf(complete(PromptOf(listing, question))).value)
    // Executing raised, or the statement returned no result set.
    ensures |calls| > 2 && calls[2].Execute? && execute(calls[2].sql).Err? ==>
      resp == Response(500, ErrorBody(execute(calls[2].sql).error)) && |calls| == 3
    ensures |calls| > 2 && calls[2].Execute? && execute(calls[2].sql).Ok?
            && execute(calls[2].sql).value.description.None? ==>
      resp == Response(500, ErrorBody(NoneNotIterable)) && |calls| == 3
    // The rows became dicts and the model was asked to summarize them.
    ensures |calls| > 2 && calls[2].Execute? && execute(calls[2].sql).Ok?
            && execute(calls[2].sql).value.description.Some? ==>
      |calls| == 4 && calls[3] == Summarize(
        RowsToDicts(execute(calls[2].sql).value.description.value, execute(calls[2].sql).value.rows))
    ensures |calls| == 4 && calls[3].Summarize? && summarize(calls[3].result).Err? ==>
      resp == Response(500, ErrorBody(summarize(calls[3].result).error))
    ensures |calls| == 4 && calls[2].Execute? && calls[3].Summarize? && summarize(calls[3].result).Ok? ==>
      resp == Response(200, AnswerBody(calls[2].sql, calls[3].result, summarize(calls[3].result).value))
    // Only a full success answers 200.
    ensures resp.status == 200 <==> resp.body.AnswerBody?
    ensures resp.status == 200 || resp.status == 400 || resp.status == 500
    ensures resp.body.AnswerBody? ==> |calls| == 4
  {
    if !HasQuestion(question) {
      return Response(400, ErrorBody(QuestionRequired)), [];
    }
    var prompt, completion := RequestSql(listing, question.value, complete);
    calls := [FetchSchema, CompleteSql(prompt)];
    if completion.Err? {
      return Response(500, ErrorBody(completion.error)), calls;
    }
    var sqlMatch := ExtractSql(completion.value);
    if sqlMatch.None? {
      return Response(400, ErrorBody(NoSqlFound)), calls;
    }
    var sql := sqlMatch.value;
    calls := calls + [Execute(sql)];
    var output := execute(sql);
    if output.Err? {
      return Response(500, ErrorBody(output.error)), calls;
    }
    if output.value.description.None? {
      return Response(500, ErrorBody(NoneNotIterable)), calls;
    }
    var result := RowsToDicts(output.value.description.value, output.value.rows);
    calls := calls + [Summarize(result)];
    var explanation := summarize(result);
    if explanation.Err? {
      return Response(500, ErrorBody(explanation.error)), calls;
    }
    resp := Response(200, AnswerBody(sql, result, explanation.value));
  }
}
