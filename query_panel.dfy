/**
 * The query panel's interaction state (frontend/src/App.jsx): the state hooks, the
 * `handleAsk` handler and the Ask button's `disabled` guard. The HTTP request is not
 * made here: its outcome is a parameter of the second half of `handleAsk`.
 */
module QueryPanel {
  import opened Wrappers
  import opened ResultClassifier

  /** The panel's state hooks. */
  datatype PanelState = PanelState(
    question: string,
    result: ResultValue,
    explanation: string,
    sql: string,
    loading: bool,
    error: string,
    visualType: string)

  /** How the request settled: a response body, or a rejection carrying the server's
      `error` field (None when the response, its data or the field is absent). */
  datatype AskOutcome =
    | Answered(result: ResultValue, explanation: string, sql: string)
    | Rejected(serverError: Option<string>)

  const ErrorPrefix: string := "\U{274C} "
  const FallbackError: string := "Something went wrong"

  /** The state hooks' initial values. */
  const InitialState: PanelState := PanelState("", Rows([]), "", "", false, "", "bar")

  /** The Ask button is enabled unless `loading || !question`. */
  predicate CanSubmit(s: PanelState)
    ensures CanSubmit(s) ==> !s.loading && |s.question| > 0
  {
    !s.loading && s.question != ""
  }

  /** `"❌ " + (err.response?.data?.error || "Something went wrong")`: an empty server
      message is falsy and falls back too. */
  function ErrorBanner(serverError: Option<string>): (e: string)
    ensures |e| > |ErrorPrefix| && e[..|ErrorPrefix|] == ErrorPrefix
    ensures serverError.Some? && serverError.value != "" ==> e == ErrorPrefix + serverError.value
    ensures serverError.None? || serverError.value == "" ==> e == ErrorPrefix + FallbackError
  {
    ErrorPrefix + (if serverError.Some? && serverError.value != "" then serverError.value else FallbackError)
  }

  /** The part of `handleAsk` before the request is awaited. */
  function Submitted(s: PanelState): (t: PanelState)
    ensures t.loading && !CanSubmit(t)
    ensures t.error == "" && t.result == Rows([]) && t.explanation == "" && t.sql == ""
    ensures t.question == s.question && t.visualType == s.visualType
  {
    s.(loading := true, error := "", result := Rows([]), explanation := "", sql := "")
  }

  /** The part of `handleAsk` after the request settles, `finally` included. */
  function Settled(s: PanelState, outcome: AskOutcome): (t: PanelState)
    ensures !t.loading && t.question == s.question && t.visualType == s.visualType
    ensures outcome.Answered? ==>
      t.result == outcome.result && t.explanation == outcome.explanation && t.sql == outcome.sql && t.error == s.error
    ensures outcome.Rejected? ==>
      t.error == ErrorBanner(outcome.serverError) && t.result == s.result
      && t.explanation == s.explanation && t.sql == s.sql
  {
    match outcome
    case Answered(r, e, q) => s.(result := r, explanation := e, sql := q, loading := false)
    case Rejected(m) => s.(error := ErrorBanner(m), loading := false)
  }

  /** While a request is outstanding the button is disabled, so no second request starts. */
  lemma NoSubmitWhileAsking(s: PanelState)
    ensures !CanSubmit(Submitted(s))
  {
  }

  /** A success stores the three response fields verbatim and leaves no error. */
  lemma AskSucceeds(s: PanelState, r: ResultValue, e: string, q: string)
    ensures var t := Settled(Submitted(s), Answered(r, e, q));
      t.result == r && t.explanation == e && t.sql == q && t.error == "" && !t.loading
      && t.question == s.question && t.visualType == s.visualType
  {
  }

  /** A failure shows the banner, and the previous result, explanation and SQL stay cleared. */
  lemma AskFails(s: PanelState, m: Option<string>)
    ensures var t := Settled(Submitted(s), Rejected(m));
      t.error == ErrorBanner(m) && t.error != "" && !t.loading
      && t.result == Rows([]) && t.explanation == "" && t.sql == ""
      && t.question == s.question && t.visualType == s.visualType
  {
  }

  /** Every outcome leaves the panel ready for the next submission of the same question. */
  lemma ResubmittableAfterOutcome(s: PanelState, outcome: AskOutcome)
    requires CanSubmit(s)
    ensures CanSubmit(Settled(Submitted(s), outcome))
  {
  }

  class Panel {
    var question: string
    var result: ResultValue
    var explanation: string
    var sql: string
    var loading: bool
    var error: string
    var visualType: string

    function State(): PanelState
      reads this
    {
      PanelState(question, result, explanation, sql, loading, error, visualType)
    }

    constructor ()
      ensures State() == InitialState
    {
      question, result, explanation, sql := "", Rows([]), "", "";
      loading, error, visualType := false, "", "bar";
    }

    /** The textarea's `onChange`. */
    method SetQuestion(q: string)
      modifies this
      ensures State() == old(State()).(question := q)
    {
      question := q;
    }

    /** The chart-type selector's `onChange`. */
    method SetVisualType(v: string)
      modifies this
      ensures State() == old(State()).(visualType := v)
    {
      visualType := v;
    }

    /** `handleAsk` up to `await`: loading is set and the previous outcome cleared. */
    method BeginAsk()
      requires CanSubmit(State())
      modifies this
      ensures State() == Submitted(old(State()))
      ensures loading && !CanSubmit(State())
    {
      loading := true;
      error := "";
      result := Rows([]);
      explanation := "";
      sql := "";
    }

    /** `handleAsk` after `await`: the `try`, `catch` and `finally` blocks. */
    method FinishAsk(outcome: AskOutcome)
      requires loading
      modifies this
      ensures State() == Settled(old(State()), outcome)
      ensures !loading
    {
      match outcome {
        case Answered(r, e, q) =>
          result := r;
          explanation := e;
          sql := q;
        case Rejected(m) =>
          error := ErrorBanner(m);
      }
      loading := false;
    }

    /** A whole `handleAsk`, started from an enabled Ask button. */
    method HandleAsk(outcome: AskOutcome)
      requires CanSubmit(State())
      modifies this
      ensures State() == Settled(Submitted(old(State())), outcome)
      ensures CanSubmit(State())
    {
      BeginAsk();
      FinishAsk(outcome);
    }
  }
}
