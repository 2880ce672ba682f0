/** Test execution of `server/test.py`: `classify_element` and the loop in
    `main` that turns each generated XPath into one result record. Each
    per-XPath browser interaction (the wait for the element, its visibility
    and enabled reads, the clear/send_keys or click) is replaced by an
    `Outcome` supplied for that position. */
module Execution {
  import opened Wrappers
  import opened Strings

  /** The action `classify_element` predicts. */
  datatype Action = FormInput | Clickable | Unknown

  /** The JSON spelling of a predicted action. */
  function ActionName(a: Action): string {
    match a
    case FormInput => "form_input"
    case Clickable => "clickable"
    case Unknown => "unknown"
  }

  /** Input types that are filled with text; `None` is an absent attribute. */
  predicate IsTextType(t: Option<string>) {
    t == None || t == Some("text") || t == Some("email") || t == Some("password")
  }

  /** `classify_element`: the tag name is lower-cased, the type attribute is
      consulted only for `input`/`textarea`. */
  function ClassifyElement(tagName: string, inputType: Option<string>): (r: Action)
    ensures var tag := Lower(tagName);
      (r == FormInput <==> (tag == "input" || tag == "textarea") && IsTextType(inputType))
      && (r == Clickable <==> tag == "button" || tag == "a" || tag == "select")
  {
    var tag := Lower(tagName);
    if tag == "input" || tag == "textarea" then
      if IsTextType(inputType) then FormInput else Unknown
    else if tag == "button" || tag == "a" || tag == "select" then Clickable
    else Unknown
  }

  /** The classification ignores letter case in the tag name: a tag that is
      already lower-cased is classified the same. */
  lemma ClassifyCaseInsensitive(tagName: string, inputType: Option<string>)
    ensures ClassifyElement(Lower(tagName), inputType) == ClassifyElement(tagName, inputType)
  {
    LowerIdempotent(tagName);
  }

  /** The status strings a record can carry. */
  datatype Status =
    | NotExecuted
    | SkippedInvisible
    | SuccessFormInput
    | SuccessClicked
    | SkippedUnknown
    | Failure

  /** The JSON spelling of a status. */
  function StatusText(s: Status): string {
    match s
    case NotExecuted => "Not Executed"
    case SkippedInvisible => "Skipped (Invisible or Disabled)"
    case SuccessFormInput => "Success (Form Input Filled)"
    case SuccessClicked => "Success (Clicked Element)"
    case SkippedUnknown => "Skipped (Unknown Element Type)"
    case Failure => "Failure"
  }

  /** An element located by its XPath: what the loop reads from it, and the
      error its action (clear and send_keys, or click) raises, if any. */
  datatype Located = Located(
    tagName: string,
    inputType: Option<string>,
    displayed: bool,
    enabled: bool,
    outerHTML: string,
    actionError: Option<string>)

  /** The outcome of the browser interaction for one XPath: the element, or the
      message of an exception raised while locating it or reading its state. */
  datatype Outcome = Found(element: Located) | Raised(message: string)

  /** One entry of the results list (`final_ai_test_results.json`). */
  datatype TestRecord = TestRecord(
    index: nat,
    xpath: string,
    predictedAction: Option<Action>,
    status: Status,
    error: Option<string>,
    outerHTML: Option<string>)

  predicate Usable(e: Located) {
    e.displayed && e.enabled
  }

  /** The record the loop body leaves for the XPath at 1-based `index`. */
  function RecordFor(index: nat, xpath: string, o: Outcome): (r: TestRecord)
    ensures r.index == index && r.xpath == xpath && r.status != NotExecuted
    ensures r.error.Some? <==> r.status == Failure
    ensures r.status == SkippedInvisible <==> o.Found? && !Usable(o.element)
    ensures r.status == SkippedUnknown
        <==> o.Found? && Usable(o.element)
             && ClassifyElement(o.element.tagName, o.element.inputType) == Unknown
    ensures r.status == SuccessFormInput
        <==> o.Found? && Usable(o.element) && o.element.actionError.None?
             && ClassifyElement(o.element.tagName, o.element.inputType) == FormInput
    ensures r.status == SuccessClicked
        <==> o.Found? && Usable(o.element) && o.element.actionError.None?
             && ClassifyElement(o.element.tagName, o.element.inputType) == Clickable
    ensures r.status == Failure ==> r.error == Some(if o.Raised? then o.message else o.element.actionError.value)
    ensures r.predictedAction.Some? <==> o.Found? && Usable(o.element)
    ensures r.outerHTML.Some? <==> o.Found?
    ensures o.Found? && Usable(o.element)
        ==> r.predictedAction == Some(ClassifyElement(o.element.tagName, o.element.inputType))
    ensures o.Found? ==> r.outerHTML == Some(o.element.outerHTML)
  {
    var blank := TestRecord(index, xpath, None, NotExecuted, None, None);
    match o
    case Raised(m) => blank.(status := Failure, error := Some(m))
    case Found(e) =>
      if !Usable(e) then blank.(status := SkippedInvisible, outerHTML := Some(e.outerHTML))
      else
        var p := ClassifyElement(e.tagName, e.inputType);
        var tc := blank.(predictedAction := Some(p), outerHTML := Some(e.outerHTML));
        if p == Unknown then tc.(status := SkippedUnknown)
        else if e.actionError.Some? then tc.(status := Failure, error := e.actionError)
        else tc.(status := if p == FormInput then SuccessFormInput else SuccessClicked)
  }

  /** The loop of `main`: one record per XPath, in order; `lookup(i)` is the
      outcome of the interaction for the XPath at 0-based position `i`. */
  method RunTests(xpaths: seq<string>, lookup: nat -> Outcome) returns (results: seq<TestRecord>)
    ensures |results| == |xpaths|
    ensures forall i :: 0 <= i < |xpaths| ==> results[i] == RecordFor(i + 1, xpaths[i], lookup(i))
    ensures forall i :: 0 <= i < |results| ==>
      results[i].index == i + 1 && results[i].xpath == xpaths[i] && results[i].status != NotExecuted
      && (results[i].error.Some? <==> results[i].status == Failure)
  {
    results := [];
    for index := 0 to |xpaths|
      invariant |results| == index
      invariant forall i :: 0 <= i < index ==> results[i] == RecordFor(i + 1, xpaths[i], lookup(i))
    {
      var xpath := xpaths[index];
      var testCase := TestRecord(index + 1, xpath, None, NotExecuted, None, None);
      match lookup(index) {
        case Raised(m) =>
          testCase := testCase.(status := Failure, error := Some(m));
        case Found(element) =>
          if !element.displayed || !element.enabled {
            testCase := testCase.(status := SkippedInvisible, outerHTML := Some(element.outerHTML));
            results := results + [testCase];
            continue;
          }
          var prediction := ClassifyElement(element.tagName, element.inputType);
          testCase := testCase.(predictedAction := Some(prediction));
          testCase := testCase.(outerHTML := Some(element.outerHTML));
          if prediction == FormInput {
            if element.actionError.Some? {
              testCase := testCase.(status := Failure, error := element.actionError);
            } else {
              testCase := testCase.(status := SuccessFormInput);
            }
          } else if prediction == Clickable {
            if element.actionError.Some? {
              testCase := testCase.(status := Failure, error := element.actionError);
            } else {
              testCase := testCase.(status := SuccessClicked);
            }
          } else {
            testCase := testCase.(status := SkippedUnknown);
          }
      }
      results := results + [testCase];
    }
  }
}
