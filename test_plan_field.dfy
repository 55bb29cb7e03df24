/** The "Test Plan" field of a revision (DifferentialTestPlanFieldSpecification):
    the plan text and the field's error, which starts out meaning
    "uninitialized" and is settled when the edit control is rendered or the
    field is validated; and the plan's round trip through a commit message.

    Whether the field is required is the `differential.require-test-plan-field`
    setting, fixed for the object's lifetime. */
module TestPlanField {
  import opened Wrappers

  /** The PHP values the error takes: false (uninitialized), null (no
      error), true (flag the field) or a message. */
  datatype FieldError = Uninitialized | NoError | Flagged | Message(text: string)

  /** The edit control: its label, input name, value and error. */
  datatype EditControl = EditControl(caption: string, name: string, value: string, error: FieldError)

  const CommitMessageKey := "testPlan"
  const SearchIndexKey := "tpln"
  const RequestKey := "testplan"

  function SupportedCommitMessageLabels(): seq<string> {
    ["Test Plan", "Testplan", "Tested", "Tests"]
  }

  function RenderLabelForCommitMessage(): (s: string)
    ensures s in SupportedCommitMessageLabels()
  {
    "Test Plan"
  }

  /** The error after the edit control is rendered. */
  function RenderedError(error: FieldError, required: bool): FieldError {
    if error == Uninitialized then (if required then Flagged else NoError) else error
  }

  /** Rendering settles an uninitialized error and changes nothing else; a
      second rendering changes nothing. */
  lemma RenderSettlesError(error: FieldError, required: bool)
    ensures RenderedError(error, required) != Uninitialized
    ensures error != Uninitialized ==> RenderedError(error, required) == error
    ensures error == Uninitialized ==> (RenderedError(error, required) == Flagged <==> required)
    ensures RenderedError(RenderedError(error, required), required) == RenderedError(error, required)
  {
  }

  /** parseValueFromCommitMessage. */
  function ParseValueFromCommitMessage(value: string): (r: string)
    ensures |r| == |value| && forall i :: 0 <= i < |r| ==> r[i] == value[i]
  {
    value
  }

  class Field {
    const required: bool
    var plan: string
    var error: FieldError

    constructor(required: bool)
      ensures this.required == required && plan == "" && error == Uninitialized
    {
      this.required := required;
      plan := "";
      error := Uninitialized;
    }

    /** didSetRevision: the revision's test plan, null read as "". */
    method DidSetRevision(testPlan: Option<string>)
      modifies this
      ensures plan == (if testPlan.Some? then testPlan.value else "") && error == old(error)
    {
      match testPlan {
        case Some(p) => plan := p;
        case None => plan := "";
      }
    }

    /** setValueFromRequest: the request's "testplan" (empty when absent),
        and no error. */
    method SetValueFromRequest(request: map<string, string>)
      modifies this
      ensures plan == (if RequestKey in request then request[RequestKey] else "")
      ensures error == NoError
    {
      plan := if RequestKey in request then request[RequestKey] else "";
      error := NoError;
    }

    method RenderEditControl() returns (control: EditControl)
      modifies this
      ensures error == RenderedError(old(error), required) && plan == old(plan)
      ensures control == EditControl("Test Plan", RequestKey, plan, error)
    {
      if error == Uninitialized {
        if required {
          error := Flagged;
        } else {
          error := NoError;
        }
      }
      control := EditControl("Test Plan", RequestKey, plan, error);
    }

    /** validateField: a required field with an empty plan fails and is
        marked "Required"; otherwise nothing changes. */
    method ValidateField() returns (r: Result<(), string>)
      modifies this
      ensures r.Err? <==> required && old(plan) == ""
      ensures r.Err? ==> error == Message("Required") && r.error == "You must provide a test plan."
      ensures r.Ok? ==> error == old(error)
      ensures plan == old(plan)
    {
      if required {
        if |plan| == 0 {
          error := Message("Required");
          return Err("You must provide a test plan.");
        }
      }
      r := Ok(());
    }

    /** setValueFromParsedCommitMessage: the plan is the value, so it is
        what the commit message and the search index then show. */
    method SetValueFromParsedCommitMessage(value: string)
      modifies this
      ensures plan == value && error == old(error)
      ensures RenderValueForCommitMessage(true) == value && RenderValueForCommitMessage(false) == value
      ensures ValueForSearchIndex() == value
    {
      plan := value;
    }

    function RenderValueForCommitMessage(isEdit: bool): string
      reads this
    {
      plan
    }

    function ValueForSearchIndex(): string
      reads this
    {
      plan
    }
  }
}
