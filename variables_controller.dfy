/** The auto-submit check of the query variables form
    (app/javascript/sage/controllers/variables_controller.js): the form is
    submitted once every named input and select has a value.  A form is the
    list of those controls' values in document order; submitting it is the
    method's result. */
module VariablesController {
  import opened Wrappers
  import opened Text

  /** A JavaScript value as `isEmpty` tells them apart. */
  datatype JsValue = Null | Undefined | Str(s: string) | OtherValue

  /** `isEmpty`: null, undefined, the empty string, or a string that trims
      to nothing. */
  predicate IsEmpty(v: JsValue) {
    v == Null || v == Undefined || v == Str("") || (v.Str? && JsTrim(v.s) == "")
  }

  /** `submitIfCompleted`: without a form nothing happens; otherwise the
      `completed` flag is cleared by every empty control and the form is
      submitted when it survives. */
  method SubmitIfCompleted(form: Option<seq<JsValue>>) returns (submitted: bool)
    ensures submitted <==> form.Some? && forall i :: 0 <= i < |form.value| ==> !IsEmpty(form.value[i])
  {
    if form.None? {
      return false;
    }
    var requiredInputs := form.value;
    var completed := true;
    for i := 0 to |requiredInputs|
      invariant completed <==> forall j :: 0 <= j < i ==> !IsEmpty(requiredInputs[j])
    {
      if IsEmpty(requiredInputs[i]) {
        completed := false;
      }
    }
    submitted := completed;
  }

  /** A value is empty exactly when it is null, undefined or a string made
      of white space and line terminators only. */
  lemma IsEmptyMeans(v: JsValue)
    ensures IsEmpty(v) <==> v.Null? || v.Undefined? || (v.Str? && AllChars(v.s, IsJsSpace))
  {
    if v.Str? {
      TrimByShape(v.s, IsJsSpace);
    }
  }

  /** A string with a character that is not white space is never empty. */
  lemma NotEmptyWithContent(s: string, i: nat)
    requires i < |s| && !IsJsSpace(s[i])
    ensures !IsEmpty(Str(s))
  {
    IsEmptyMeans(Str(s));
  }
}
