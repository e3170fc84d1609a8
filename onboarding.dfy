/**
 * The interview (components/InteractiveOnboarding.tsx): each answer is
 * validated and normalised, folded into the partial project data and logged
 * as a transcript step; the next question comes from the language model,
 * which may answer with the COMPLETE sentinel instead.
 */
module Interview {
  import opened Types
  import opened Text

  const EmptyAnswerMessage := "Dieses Feld darf nicht leer sein."
  const NoFeatureMessage := "Bitte geben Sie mindestens eine Funktion ein."
  const ConnectionErrorMessage := "Verbindung zum KI-Dienst fehlgeschlagen. Bitte versuchen Sie es erneut."

  /** One answered question of the transcript. */
  datatype Step = Step(field: Field, answer: string, question: string)

  /** What validation makes of a raw answer. */
  datatype Verdict = Accepted(value: FieldValue) | Rejected(message: string)

  // ---------------------------------------------------------------------------
  // The keyFeatures list: split on commas, trim every piece, drop empty pieces.
  // ---------------------------------------------------------------------------

  /** `.map(s => s.trim()).filter(s => s)`: the trimmed pieces that are
      not empty, in order. */
  function TrimNonEmpty(pieces: seq<string>): (r: seq<string>)
    ensures |r| <= |pieces|
    ensures forall i :: 0 <= i < |r| ==> r[i] != "" && Trimmed(r[i])
    decreases |pieces|
  {
    if pieces == [] then []
    else
      var t := Trim(pieces[0]);
      if t == "" then TrimNonEmpty(pieces[1..]) else [t] + TrimNonEmpty(pieces[1..])
  }

  /** A feature as the list keeps it: non-empty, trimmed, without a comma. */
  predicate CleanFeature(f: string) {
    f != "" && Trimmed(f) && ',' !in f
  }

  lemma TrimKeepsCharOut(s: string, c: char)
    requires c !in s
    ensures c !in Trim(s)
  {
    TrimIsInfix(s);
  }

  lemma {:induction false} TrimNonEmptyKeepsCharOut(pieces: seq<string>, c: char)
    requires forall j :: 0 <= j < |pieces| ==> c !in pieces[j]
    ensures forall i :: 0 <= i < |TrimNonEmpty(pieces)| ==> c !in TrimNonEmpty(pieces)[i]
    decreases |pieces|
  {
    if pieces != [] {
      TrimKeepsCharOut(pieces[0], c);
      TrimNonEmptyKeepsCharOut(pieces[1..], c);
    }
  }

  lemma {:induction false} TrimNonEmptyAppend(a: seq<string>, b: seq<string>)
    ensures TrimNonEmpty(a + b) == TrimNonEmpty(a) + TrimNonEmpty(b)
    decreases |a|
  {
    if a != [] {
      assert (a + b)[0] == a[0];
      assert (a + b)[1..] == a[1..] + b;
      TrimNonEmptyAppend(a[1..], b);
    } else {
      assert a + b == b;
    }
  }

  /** The pieces `[x] + rest` and `[y] + rest` give the same features when
      `x` and `y` trim to the same text. */
  lemma TrimNonEmptyHead(x: string, y: string, rest: seq<string>)
    requires Trim(x) == Trim(y)
    ensures TrimNonEmpty([x] + rest) == TrimNonEmpty([y] + rest)
  {
    assert ([x] + rest)[1..] == rest;
    assert ([y] + rest)[1..] == rest;
  }

  /** `value.split(',').map(s => s.trim()).filter(s => s)`. */
  function ParseFeatures(value: string): seq<string>
  {
    TrimNonEmpty(Split(value, ','))
  }

  /** Every feature the parse keeps is clean. */
  lemma ParseFeaturesClean(value: string)
    ensures forall i :: 0 <= i < |ParseFeatures(value)| ==> CleanFeature(ParseFeatures(value)[i])
  {
    TrimNonEmptyKeepsCharOut(Split(value, ','), ',');
  }

  lemma CommaNotInWhitespace(w: string)
    requires AllWhitespace(w)
    ensures ',' !in w
  {
    forall i | 0 <= i < |w| ensures w[i] != ',' {
      assert IsWhitespace(w[i]);
    }
  }

  /** The features on both sides of a comma are listed one after the other. */
  lemma {:induction false} ParseFeaturesAtComma(x: string, y: string)
    ensures ParseFeatures(x + [','] + y) == ParseFeatures(x) + ParseFeatures(y)
  {
    SplitAtSeparator(x, y, ',');
    TrimNonEmptyAppend(Split(x, ','), Split(y, ','));
  }

  lemma {:induction false} ParseFeaturesOfWhitespacePrefix(w: string, s: string)
    requires AllWhitespace(w)
    ensures ParseFeatures(w + s) == ParseFeatures(s)
  {
    CommaNotInWhitespace(w);
    var p := Split(s, ',');
    SplitWithPrefix(w, s, ',');
    TrimOfWhitespacePrefix(w, p[0]);
    assert p == [p[0]] + p[1..];
    TrimNonEmptyHead(w + p[0], p[0], p[1..]);
  }

  lemma {:induction false} ParseFeaturesOfWhitespaceSuffix(s: string, w: string)
    requires AllWhitespace(w)
    ensures ParseFeatures(s + w) == ParseFeatures(s)
  {
    CommaNotInWhitespace(w);
    var p := Split(s, ',');
    var n := |p| - 1;
    SplitWithSuffix(s, w, ',');
    TrimOfWhitespaceSuffix(p[n], w);
    assert p == p[..n] + [p[n]];
    TrimNonEmptyAppend(p[..n], [p[n] + w]);
    TrimNonEmptyAppend(p[..n], [p[n]]);
    TrimNonEmptyHead(p[n] + w, p[n], []);
  }

  /** Splitting the trimmed answer or the raw one gives the same features. */
  lemma {:induction false} ParseFeaturesOfTrim(s: string)
    ensures ParseFeatures(Trim(s)) == ParseFeatures(s)
  {
    var a, b := TrimDecompose(s);
    var m := Trim(s);
    assert s == a + (m + b);
    ParseFeaturesOfWhitespacePrefix(a, m + b);
    ParseFeaturesOfWhitespaceSuffix(m, b);
  }

  lemma {:induction false} TrimNonEmptyEmptyIff(pieces: seq<string>)
    ensures TrimNonEmpty(pieces) == [] <==> forall i :: 0 <= i < |pieces| ==> AllWhitespace(pieces[i])
    decreases |pieces|
  {
    if pieces != [] {
      BlankIffAllWhitespace(pieces[0]);
      TrimNonEmptyEmptyIff(pieces[1..]);
      assert forall i :: 1 <= i < |pieces| ==> pieces[i] == pieces[1..][i - 1];
    }
  }

  /** Every piece is blank. */
  predicate AllBlank(pieces: seq<string>) {
    forall i :: 0 <= i < |pieces| ==> AllWhitespace(pieces[i])
  }

  /** No feature is found exactly when every comma-separated piece is blank. */
  lemma ParseFeaturesEmptyIff(s: string)
    ensures ParseFeatures(s) == [] <==> AllBlank(Split(s, ','))
  {
    TrimNonEmptyEmptyIff(Split(s, ','));
  }

  /** A clean feature parses to itself. */
  lemma ParseCleanFeature(f: string)
    requires CleanFeature(f)
    ensures ParseFeatures(f) == [f]
  {
    SplitWithoutSeparator(f, ',');
    TrimOfTrimmed(f);
  }

  /** Features listed with ", " between them are parsed one after the other. */
  lemma ParseFeaturesAtCommaSpace(x: string, y: string)
    ensures ParseFeatures(x + ", " + y) == ParseFeatures(x) + ParseFeatures(y)
  {
    var spaced := " " + y;
    assert x + ", " + y == x + [','] + spaced;
    ParseFeaturesAtComma(x, spaced);
    assert IsWhitespace(' ');
    ParseFeaturesOfWhitespacePrefix(" ", y);
  }

  /** Listing clean features with ", " and parsing the list gives them back. */
  lemma {:induction false} ParseJoinedFeatures(features: seq<string>)
    requires forall i :: 0 <= i < |features| ==> CleanFeature(features[i])
    ensures ParseFeatures(Join(features, ", ")) == features
    decreases |features|
  {
    if features == [] {
      assert Split("", ',') == [""];
    } else if |features| == 1 {
      ParseCleanFeature(features[0]);
    } else {
      var f, rest := features[0], features[1..];
      ParseCleanFeature(f);
      ParseJoinedFeatures(rest);
      ParseFeaturesAtCommaSpace(f, Join(rest, ", "));
      assert [f] + rest == features;
    }
  }

  // ---------------------------------------------------------------------------
  // Validation of one answer.
  // ---------------------------------------------------------------------------

  /** The checks `handleSubmit` runs on the input before storing it: a blank
      answer is refused; a `keyFeatures` answer becomes its feature list and is
      refused when that list is empty; any other answer is stored trimmed. */
  function NormalizeAnswer(field: Field, input: string): (v: Verdict)
    ensures v.Accepted? ==> Trim(input) != ""
  {
    var trimmedValue := Trim(input);
    if trimmedValue == "" then
      Rejected(EmptyAnswerMessage)
    else if field == KeyFeatures then
      var features := ParseFeatures(trimmedValue);
      if |features| == 0 then Rejected(NoFeatureMessage) else Accepted(List(features))
    else
      Accepted(Text(trimmedValue))
  }

  /** An answer is refused exactly when it is blank, or, for `keyFeatures`,
      when every comma-separated piece of it is blank. */
  lemma {:induction false} NormalizeAnswerRejectsIff(field: Field, input: string)
    ensures NormalizeAnswer(field, input).Rejected? <==>
            || AllWhitespace(input)
            || (field == KeyFeatures && AllBlank(Split(input, ',')))
  {
    BlankIffAllWhitespace(input);
    ParseFeaturesOfTrim(input);
    ParseFeaturesEmptyIff(input);
  }

  /** What an accepted answer stores: the clean, non-empty feature list of the
      raw answer for `keyFeatures`, the trimmed non-blank answer otherwise. */
  lemma {:induction false} NormalizeAnswerAccepts(field: Field, input: string)
    requires NormalizeAnswer(field, input).Accepted?
    ensures var v := NormalizeAnswer(field, input).value;
            && (field == KeyFeatures ==>
                  && v == List(ParseFeatures(input))
                  && |v.items| > 0
                  && forall i :: 0 <= i < |v.items| ==> CleanFeature(v.items[i]))
            && (field != KeyFeatures ==> v == Text(Trim(input)) && Trim(input) != "" && Trimmed(v.text))
  {
    ParseFeaturesOfTrim(input);
    ParseFeaturesClean(input);
    var f, b := TrimDecompose(input);
  }

  /** The refusal messages are exactly the two validation texts. */
  lemma NormalizeAnswerMessages(field: Field, input: string)
    requires NormalizeAnswer(field, input).Rejected?
    ensures var m := NormalizeAnswer(field, input).message;
            m == EmptyAnswerMessage || (field == KeyFeatures && m == NoFeatureMessage)
  {
  }

  // ---------------------------------------------------------------------------
  // Merging a suggestion into the input.
  // ---------------------------------------------------------------------------

  /** `useSuggestion`: append a suggested value to what is already typed. */
  function MergeSuggestion(previous: string, suggestion: string): string
  {
    var trimmed := Trim(previous);
    if trimmed == "" then suggestion
    else if EndsWith(trimmed, ',') then trimmed + " " + suggestion
    else trimmed + ", " + suggestion
  }

  /** The merged input is the suggestion alone when nothing non-blank was
      typed; otherwise it starts with the trimmed input, then a separator
      that makes the suggestion a new comma-separated piece, then the
      suggestion. */
  lemma MergeSuggestionShape(previous: string, suggestion: string)
    ensures var merged := MergeSuggestion(previous, suggestion);
            && |merged| >= |suggestion| && merged[|merged| - |suggestion|..] == suggestion
            && (AllWhitespace(previous) ==> merged == suggestion)
            && (!AllWhitespace(previous) ==>
                  var t := Trim(previous);
                  && IsPrefix(t, merged)
                  && merged[|t|..|merged| - |suggestion|] == (if EndsWith(t, ',') then " " else ", "))
  {
    BlankIffAllWhitespace(previous);
  }

  /** An empty input has no features. */
  lemma ParseFeaturesOfEmpty()
    ensures ParseFeatures("") == []
  {
    assert Split("", ',') == [""];
  }

  /** A trailing comma adds no feature. */
  lemma ParseFeaturesTrailingComma(u: string)
    ensures ParseFeatures(u + [',']) == ParseFeatures(u)
  {
    assert u + [','] == u + [','] + "";
    ParseFeaturesAtComma(u, "");
    ParseFeaturesOfEmpty();
  }

  /** After a trailing comma, a space and the suggestion add the
      suggestion's features. */
  lemma ParseFeaturesAfterTrailingComma(t: string, suggestion: string)
    requires EndsWith(t, ',')
    ensures ParseFeatures(t + " " + suggestion) == ParseFeatures(t) + ParseFeatures(suggestion)
  {
    var u := t[..|t| - 1];
    assert t == u + [','];
    ParseFeaturesTrailingComma(u);
    assert t + " " + suggestion == u + ", " + suggestion;
    ParseFeaturesAtCommaSpace(u, suggestion);
  }

  /** Merging a suggestion adds its features after those already typed: the
      merged input parses to the old features followed by the suggestion's. */
  lemma MergeSuggestionAppendsFeatures(previous: string, suggestion: string)
    ensures ParseFeatures(MergeSuggestion(previous, suggestion)) ==
            ParseFeatures(previous) + ParseFeatures(suggestion)
  {
    var t := Trim(previous);
    ParseFeaturesOfTrim(previous);
    if t == "" {
      ParseFeaturesOfEmpty();
    } else if EndsWith(t, ',') {
      ParseFeaturesAfterTrailingComma(t, suggestion);
    } else {
      ParseFeaturesAtCommaSpace(t, suggestion);
    }
  }

  // ---------------------------------------------------------------------------
  // The component's state and what one submission does to it.
  // ---------------------------------------------------------------------------

  /** The component's state: the answers so far, the question on screen, the
      text field, the loading flag, the validation message and the transcript. */
  datatype Screen = Screen(
    data: PartialProjectData,
    interview: Option<InterviewState>,
    inputValue: string,
    isLoading: bool,
    validationError: Option<string>,
    steps: seq<Step>)

  /** A transcript step is a non-blank trimmed answer to a field that holds a value. */
  predicate StepRecorded(step: Step, data: PartialProjectData) {
    step.field in data && step.answer != "" && Trimmed(step.answer)
  }

  /** The question on screen always names a field (the sentinel is never
      shown), and every transcript step is recorded in the data. */
  predicate WellFormed(st: Screen) {
    && (st.interview.Some? ==> st.interview.value.currentField.Ask?)
    && forall i :: 0 <= i < |st.steps| ==> StepRecorded(st.steps[i], st.data)
  }

  /** The state after a submission, and the data the next question is
      requested for (none when the answer was not stored). */
  datatype Submission = Submission(next: Screen, request: Option<PartialProjectData>)

  /** `handleSubmit` on a state: without a question nothing happens; a refused
      answer only sets the validation message; an accepted one is stored under
      the question's field and logged as a step, and clears the input, the
      message and the question. */
  function Submit(st: Screen): Submission
    requires WellFormed(st)
  {
    match st.interview
    case None => Submission(st, None)
    case Some(q) =>
      var field := q.currentField.field;
      match NormalizeAnswer(field, st.inputValue)
      case Rejected(message) => Submission(st.(validationError := Some(message)), None)
      case Accepted(value) =>
        var updated := st.data[field := value];
        Submission(
          st.(data := updated,
              steps := st.steps + [Step(field, Trim(st.inputValue), q.question)],
              inputValue := "", interview := None, validationError := None),
          Some(updated))
  }

  /** A submission keeps the state well formed. */
  lemma SubmitKeepsWellFormed(st: Screen)
    requires WellFormed(st)
    ensures WellFormed(Submit(st).next)
  {
    if st.interview.Some? {
      var field := st.interview.value.currentField.field;
      if NormalizeAnswer(field, st.inputValue).Accepted? {
        TrimIdempotent(st.inputValue);
        var next := Submit(st).next;
        forall i | 0 <= i < |next.steps| ensures StepRecorded(next.steps[i], next.data) {
          if i < |st.steps| {
            assert next.steps[i] == st.steps[i];
          }
        }
      }
    }
  }

  /** The next question is requested exactly when a question was on screen and
      its answer was accepted; the request carries the updated data, which is
      the old data with the normalised answer under the question's field.
      Then the transcript gains the step (field, trimmed answer, question),
      the input, the question and the validation message are cleared, and
      nothing else changes. Without a question nothing changes at all. */
  lemma SubmitRequestsIff(st: Screen)
    requires WellFormed(st)
    ensures Submit(st).request.Some? <==>
            st.interview.Some? && NormalizeAnswer(st.interview.value.currentField.field, st.inputValue).Accepted?
    ensures Submit(st).request.Some? ==>
              var field := st.interview.value.currentField.field;
              && Submit(st).request == Some(Submit(st).next.data)
              && Submit(st).next.data == st.data[field := NormalizeAnswer(field, st.inputValue).value]
              && Submit(st).next == st.(data := st.data[field := NormalizeAnswer(field, st.inputValue).value],
                                        steps := st.steps + [Step(field, Trim(st.inputValue), st.interview.value.question)],
                                        inputValue := "", interview := None, validationError := None)
    ensures st.interview.None? ==> Submit(st) == Submission(st, None)
  {
  }

  /** A refused answer leaves everything but the validation message alone,
      and the message says why. */
  lemma SubmitRefusal(st: Screen)
    requires WellFormed(st) && st.interview.Some?
    requires NormalizeAnswer(st.interview.value.currentField.field, st.inputValue).Rejected?
    ensures var next := Submit(st).next;
            && next.(validationError := st.validationError) == st
            && next.validationError.Some?
            && (next.validationError.value == EmptyAnswerMessage || next.validationError.value == NoFeatureMessage)
            && (next.validationError.value == EmptyAnswerMessage <==> AllWhitespace(st.inputValue))
  {
    BlankIffAllWhitespace(st.inputValue);
  }

  // ---------------------------------------------------------------------------
  // The component.
  // ---------------------------------------------------------------------------

  class InteractiveOnboarding {
    var data: PartialProjectData
    var interview: Option<InterviewState>
    var inputValue: string
    var isLoading: bool
    var validationError: Option<string>
    var steps: seq<Step>

    ghost function State(): Screen
      reads this
    {
      Screen(data, interview, inputValue, isLoading, validationError, steps)
    }

    ghost predicate Valid()
      reads this
    {
      WellFormed(State())
    }

    constructor ()
      ensures Valid()
      ensures State() == Screen(map[], None, "", false, None, [])
    {
      data := map[];
      interview := None;
      inputValue := "";
      isLoading := false;
      validationError := None;
      steps := [];
    }

    /** `fetchNextQuestion(currentData)` with the model's `response`. The
        sentinel hands `currentData` to the caller (`onComplete`) and sets no
        question; any other turn becomes the question; a failure sets the
        connection error. Loading is off again in every case. */
    method FetchNextQuestion(currentData: PartialProjectData, response: Outcome<InterviewState>)
      returns (handedOff: Option<PartialProjectData>)
      requires Valid()
      modifies this
      ensures Valid()
      ensures !isLoading
      ensures data == old(data) && steps == old(steps) && inputValue == old(inputValue)
      ensures response.Ok? && response.value.currentField == Complete ==>
                handedOff == Some(currentData) && interview == old(interview)
                && validationError == old(validationError)
      ensures response.Ok? && response.value.currentField.Ask? ==>
                handedOff == None && interview == Some(response.value)
                && validationError == old(validationError)
      ensures response.Fail? ==>
                handedOff == None && interview == old(interview)
                && validationError == Some(ConnectionErrorMessage)
    {
      isLoading := true;
      handedOff := None;
      match response {
        case Ok(next) =>
          if next.currentField == Complete {
            handedOff := Some(currentData);
          } else {
            interview := Some(next);
          }
        case Fail(_) =>
          validationError := Some(ConnectionErrorMessage);
      }
      isLoading := false;
    }

    /** `handleSubmit`: the new state and the request are those of `Submit`. */
    method HandleSubmit() returns (request: Option<PartialProjectData>)
      requires Valid()
      modifies this
      ensures Valid()
      ensures State() == Submit(old(State())).next
      ensures request == Submit(old(State())).request
    {
      SubmitKeepsWellFormed(State());
      ghost var submission := Submit(State());
      request := None;
      if interview.None? {
        return;
      }
      validationError := None;
      var trimmedValue := Trim(inputValue);
      if trimmedValue == "" {
        validationError := Some(EmptyAnswerMessage);
        return;
      }
      var field := interview.value.currentField.field;
      var newValue := Text(trimmedValue);
      if field == KeyFeatures {
        var features := ParseFeatures(trimmedValue);
        if |features| == 0 {
          validationError := Some(NoFeatureMessage);
          return;
        }
        newValue := List(features);
      }
      assert NormalizeAnswer(field, inputValue) == Accepted(newValue);
      data := data[field := newValue];
      steps := steps + [Step(field, trimmedValue, interview.value.question)];
      inputValue := "";
      interview := None;
      request := Some(data);
    }

    /** `useSuggestion`: clears the validation message and merges the
        suggestion into the input. */
    method UseSuggestion(suggestion: string)
      requires Valid()
      modifies this
      ensures Valid()
      ensures State() == old(State()).(inputValue := MergeSuggestion(old(inputValue), suggestion), validationError := None)
    {
      validationError := None;
      inputValue := MergeSuggestion(inputValue, suggestion);
    }

    /** Typing into the input replaces it and clears a validation message. */
    method SetInput(value: string)
      requires Valid()
      modifies this
      ensures Valid()
      ensures State() == old(State()).(inputValue := value, validationError := None)
    {
      inputValue := value;
      if validationError.Some? {
        validationError := None;
      }
    }
  }
}
