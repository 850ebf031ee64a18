/**
 * Schema-to-form translation: questionnaire.go's defineValidators, getFields
 * and the option lists built for the two choice widgets. Fields and
 * validators are abstract descriptions of what is handed to the form library.
 */
module Forms {
  import opened Wrappers
  import Format

  /** The question kinds the form builder knows, with their schema tags. */
  datatype QuestionType = TextBox | Number | MultipleChoice | SingleChoice

  function Tag(t: QuestionType): string {
    match t
    case TextBox => "textBoxQuestion"
    case Number => "numberQuestion"
    case MultipleChoice => "multipleChoiceQuestion"
    case SingleChoice => "singleChoiceQuestion"
  }

  /** The question kind a schema tag names; None for a tag the builder ignores. */
  function ParseType(tag: string): (r: Option<QuestionType>)
    ensures r.Some? ==> Tag(r.value) == tag
  {
    if tag == "textBoxQuestion" then Some(TextBox)
    else if tag == "numberQuestion" then Some(Number)
    else if tag == "multipleChoiceQuestion" then Some(MultipleChoice)
    else if tag == "singleChoiceQuestion" then Some(SingleChoice)
    else None
  }

  lemma ParseTag(t: QuestionType)
    ensures ParseType(Tag(t)) == Some(t)
  {
  }

  lemma KnownTags(tag: string)
    ensures ParseType(tag).Some? <==>
      tag in ["textBoxQuestion", "numberQuestion", "multipleChoiceQuestion", "singleChoiceQuestion"]
  {
  }

  /**
   * One entry of a locale's question list: its "type" tag, its "question"
   * text, its "name", its "required" flag, its optional "maxLength" and its
   * "choices" (used by the two choice kinds only).
   */
  datatype Question = Question(
    kind: string,
    text: string,
    name: string,
    required: bool,
    maxLength: Option<nat>,
    choices: seq<string>)

  /** The error-message entries of one locale that validators use. */
  datatype ErrorMessages = ErrorMessages(required: string, maxChars: string)

  datatype Validator = Required(message: string) | MaxLength(limit: nat, message: string)

  datatype FieldKind = TextField | IntegerField | MultipleTextField

  datatype WidgetStyle = CheckboxMultiple | RadioSelect

  /** `[value, text, checked, disabled]` as the widget's option constructor takes it. */
  type OptionRow = seq<string>

  datatype Widget = Widget(style: WidgetStyle, attrs: map<string, string>, options: seq<OptionRow>)

  datatype Field = Field(kind: FieldKind, text: string, validators: seq<Validator>, widget: Option<Widget>)

  /** The message of a MaxLength validator: the locale's maxChars template with the limit filled in. */
  function MaxCharsMessage(msgs: ErrorMessages, limit: nat): string {
    Format.FormatInt(msgs.maxChars, limit)
  }

  /** Reference definition of a question's validator chain. */
  function ValidatorChain(q: Question, msgs: ErrorMessages): (chain: seq<Validator>)
    ensures |chain| == (if q.required then 1 else 0) + (if q.maxLength.Some? then 1 else 0)
  {
    (if q.required then [Required(msgs.required)] else [])
    + (match q.maxLength
       case None => []
       case Some(n) => [MaxLength(n, MaxCharsMessage(msgs, n))])
  }

  lemma ChainShape(q: Question, msgs: ErrorMessages)
    ensures |ValidatorChain(q, msgs)| == (if q.required then 1 else 0) + (if q.maxLength.Some? then 1 else 0)
    ensures (exists i :: 0 <= i < |ValidatorChain(q, msgs)| && ValidatorChain(q, msgs)[i].Required?) <==> q.required
    ensures q.required ==> ValidatorChain(q, msgs)[0] == Required(msgs.required)
    ensures (exists i :: 0 <= i < |ValidatorChain(q, msgs)| && ValidatorChain(q, msgs)[i].MaxLength?) <==> q.maxLength.Some?
    ensures q.maxLength.Some? ==>
      ValidatorChain(q, msgs)[|ValidatorChain(q, msgs)| - 1]
        == MaxLength(q.maxLength.value, MaxCharsMessage(msgs, q.maxLength.value))
    ensures forall i, j ::
      (0 <= i < |ValidatorChain(q, msgs)| && 0 <= j < |ValidatorChain(q, msgs)|
       && ValidatorChain(q, msgs)[i].Required? && ValidatorChain(q, msgs)[j].MaxLength?) ==> i < j
  {
    var c := ValidatorChain(q, msgs);
    if q.required {
      assert c[0].Required?;
    }
    if q.maxLength.Some? {
      assert c[|c| - 1].MaxLength?;
    }
  }

  /** defineValidators: a Required validator if the question is required, then a MaxLength one if it has a limit. */
  method DefineValidators(q: Question, msgs: ErrorMessages) returns (validators: seq<Validator>)
    ensures validators == ValidatorChain(q, msgs)
  {
    validators := [];
    if q.required {
      validators := validators + [Required(msgs.required)];
    }
    if q.maxLength.Some? {
      var v := q.maxLength.value;
      validators := validators + [MaxLength(v, Format.FormatInt(msgs.maxChars, v))];
    }
  }

  /** Reference definition of a choice widget's option list. */
  function OptionRows(choices: seq<string>): (rows: seq<OptionRow>)
    ensures |rows| == |choices|
    ensures forall i :: 0 <= i < |choices| ==> rows[i] == [choices[i], choices[i], "false", "false"]
  {
    if choices == [] then []
    else OptionRows(choices[..|choices| - 1]) + [[choices[|choices| - 1], choices[|choices| - 1], "false", "false"]]
  }

  /** The option-list closures of the two choice cases: one row per declared choice. */
  method ChoiceOptions(choices: seq<string>) returns (rows: seq<OptionRow>)
    ensures rows == OptionRows(choices)
  {
    rows := [];
    for i := 0 to |choices|
      invariant rows == OptionRows(choices[..i])
    {
      var v := choices[i];
      assert choices[..i + 1][..i] == choices[..i];
      rows := rows + [[v, v, "false", "false"]];
    }
    assert choices[..|choices|] == choices;
  }

  function ChoiceWidget(style: WidgetStyle, q: Question): Widget {
    Widget(style, map["class" := q.name, "id" := q.name], OptionRows(q.choices))
  }

  /** Reference definition of the field one question contributes, if any. */
  function BuildField(q: Question, msgs: ErrorMessages): (r: Option<Field>)
    ensures r.Some? <==> ParseType(q.kind).Some?
    ensures r.Some? ==> r.value.text == q.text && r.value.validators == ValidatorChain(q, msgs)
  {
    match ParseType(q.kind)
    case None => None
    case Some(TextBox) => Some(Field(TextField, q.text, ValidatorChain(q, msgs), None))
    case Some(Number) => Some(Field(IntegerField, q.text, ValidatorChain(q, msgs), None))
    case Some(MultipleChoice) =>
      Some(Field(MultipleTextField, q.text, ValidatorChain(q, msgs), Some(ChoiceWidget(CheckboxMultiple, q))))
    case Some(SingleChoice) =>
      Some(Field(TextField, q.text, ValidatorChain(q, msgs), Some(ChoiceWidget(RadioSelect, q))))
  }

  /** The field kind, widget and option list follow the question's tag. */
  lemma BuildFieldShape(q: Question, msgs: ErrorMessages)
    ensures var r := BuildField(q, msgs); r.Some? <==> ParseType(q.kind).Some?
    ensures var r := BuildField(q, msgs);
      r.Some? ==> r.value.text == q.text && r.value.validators == ValidatorChain(q, msgs)
    ensures var r := BuildField(q, msgs);
      q.kind == "textBoxQuestion" ==> r.Some? && r.value.kind == TextField && r.value.widget == None
    ensures var r := BuildField(q, msgs);
      q.kind == "numberQuestion" ==> r.Some? && r.value.kind == IntegerField && r.value.widget == None
    ensures var r := BuildField(q, msgs);
      q.kind == "multipleChoiceQuestion" ==>
        r.Some? && r.value.kind == MultipleTextField && r.value.widget.Some? && r.value.widget.value.style == CheckboxMultiple
    ensures var r := BuildField(q, msgs);
      q.kind == "singleChoiceQuestion" ==>
        r.Some? && r.value.kind == TextField && r.value.widget.Some? && r.value.widget.value.style == RadioSelect
    ensures var r := BuildField(q, msgs);
      r.Some? && r.value.widget.Some? ==>
        && r.value.widget.value.attrs == map["class" := q.name, "id" := q.name]
        && |r.value.widget.value.options| == |q.choices|
        && forall i :: 0 <= i < |q.choices| ==>
             r.value.widget.value.options[i] == [q.choices[i], q.choices[i], "false", "false"]
  {
  }

  function FieldOf(q: Question, msgs: ErrorMessages): (r: seq<Field>)
    ensures |r| <= 1
  {
    match BuildField(q, msgs)
    case None => []
    case Some(f) => [f]
  }

  /** The results of f on the elements of xs, concatenated in order. */
  function FlatMap<T, U>(xs: seq<T>, f: T -> seq<U>): seq<U> {
    if xs == [] then [] else FlatMap(xs[..|xs| - 1], f) + f(xs[|xs| - 1])
  }

  lemma {:induction false} FlatMapAtMostOne<T, U>(xs: seq<T>, f: T -> seq<U>)
    requires forall x :: |f(x)| <= 1
    ensures |FlatMap(xs, f)| <= |xs|
  {
    if xs != [] {
      FlatMapAtMostOne(xs[..|xs| - 1], f);
    }
  }

  lemma FlatMapSnoc<T, U>(xs: seq<T>, x: T, f: T -> seq<U>)
    ensures FlatMap(xs + [x], f) == FlatMap(xs, f) + f(x)
  {
    assert (xs + [x])[..|xs|] == xs;
  }

  lemma {:induction false} FlatMapConcat<T, U>(a: seq<T>, b: seq<T>, f: T -> seq<U>)
    ensures FlatMap(a + b, f) == FlatMap(a, f) + FlatMap(b, f)
    decreases |b|
  {
    if b == [] {
      assert a + b == a;
    } else {
      var init, last := b[..|b| - 1], b[|b| - 1];
      calc {
        FlatMap(a + b, f);
        { assert a + b == (a + init) + [last]; FlatMapSnoc(a + init, last, f); }
        FlatMap(a + init, f) + f(last);
        { FlatMapConcat(a, init, f); }
        FlatMap(a, f) + FlatMap(init, f) + f(last);
        { assert b == init + [last]; FlatMapSnoc(init, last, f); }
        FlatMap(a, f) + FlatMap(b, f);
      }
    }
  }

  /** Reference definition of the field list: one field per known question, in question order. */
  function Fields(qs: seq<Question>, msgs: ErrorMessages): (fields: seq<Field>)
    ensures |fields| <= |qs|
  {
    FlatMapAtMostOne(qs, q => FieldOf(q, msgs));
    FlatMap(qs, q => FieldOf(q, msgs))
  }

  predicate Known(q: Question) {
    ParseType(q.kind).Some?
  }

  /** The positions of the elements of xs that satisfy p, in increasing order. */
  function Positions<T>(xs: seq<T>, p: T -> bool): (idx: seq<nat>)
    ensures forall j :: 0 <= j < |idx| ==> idx[j] < |xs| && p(xs[idx[j]])
    ensures forall i, j :: 0 <= i < j < |idx| ==> idx[i] < idx[j]
    ensures forall k :: 0 <= k < |xs| && p(xs[k]) ==> k in idx
  {
    if xs == [] then []
    else
      var n := |xs| - 1;
      var prefix := Positions(xs[..n], p);
      assert forall j :: 0 <= j < |prefix| ==> xs[prefix[j]] == xs[..n][prefix[j]];
      assert forall k :: 0 <= k < n ==> xs[k] == xs[..n][k];
      prefix + (if p(xs[n]) then [n] else [])
  }

  /** The positions of the questions with a known tag. */
  function KnownIndices(qs: seq<Question>): seq<nat> {
    Positions(qs, Known)
  }

  lemma {:induction false} FieldsFollowKnownQuestions(qs: seq<Question>, msgs: ErrorMessages)
    ensures |Fields(qs, msgs)| == |KnownIndices(qs)|
    ensures forall j :: 0 <= j < |KnownIndices(qs)| ==>
      BuildField(qs[KnownIndices(qs)[j]], msgs) == Some(Fields(qs, msgs)[j])
  {
    if qs != [] {
      var n := |qs| - 1;
      var prefix := qs[..n];
      var fs, idx := Fields(prefix, msgs), KnownIndices(prefix);
      FieldsFollowKnownQuestions(prefix, msgs);
      assert Fields(qs, msgs) == fs + FieldOf(qs[n], msgs);
      assert KnownIndices(qs) == idx + (if Known(qs[n]) then [n] else []);
      assert |FieldOf(qs[n], msgs)| == if Known(qs[n]) then 1 else 0;
      forall j | 0 <= j < |KnownIndices(qs)|
        ensures BuildField(qs[KnownIndices(qs)[j]], msgs) == Some(Fields(qs, msgs)[j])
      {
        if j < |idx| {
          assert qs[idx[j]] == prefix[idx[j]];
        }
      }
    }
  }

  lemma FieldsConcat(a: seq<Question>, b: seq<Question>, msgs: ErrorMessages)
    ensures Fields(a + b, msgs) == Fields(a, msgs) + Fields(b, msgs)
  {
    FlatMapConcat(a, b, q => FieldOf(q, msgs));
  }

  lemma FieldsSnoc(qs: seq<Question>, q: Question, msgs: ErrorMessages)
    ensures Fields(qs + [q], msgs) == Fields(qs, msgs) + FieldOf(q, msgs)
  {
    FlatMapSnoc(qs, q, q => FieldOf(q, msgs));
  }

  lemma FieldsPrefix(qs: seq<Question>, i: nat, msgs: ErrorMessages)
    requires i < |qs|
    ensures Fields(qs[..i + 1], msgs) == Fields(qs[..i], msgs) + FieldOf(qs[i], msgs)
  {
    assert qs[..i + 1] == qs[..i] + [qs[i]];
    FieldsSnoc(qs[..i], qs[i], msgs);
  }

  lemma UnknownQuestionDropped(a: seq<Question>, q: Question, b: seq<Question>, msgs: ErrorMessages)
    requires !Known(q)
    ensures Fields(a + [q] + b, msgs) == Fields(a + b, msgs)
  {
    assert FieldOf(q, msgs) == [];
    FieldsSnoc(a, q, msgs);
    assert Fields(a + [q], msgs) == Fields(a, msgs);
    FieldsConcat(a + [q], b, msgs);
    FieldsConcat(a, b, msgs);
  }

  /** The switch in getFields' loop body: the field a question's tag calls for, if any. */
  method FieldFor(q: Question, msgs: ErrorMessages) returns (field: Option<Field>)
    ensures field == BuildField(q, msgs)
  {
    if q.kind == "textBoxQuestion" {
      assert ParseType(q.kind) == Some(TextBox);
      var validators := DefineValidators(q, msgs);
      field := Some(Field(TextField, q.text, validators, None));
    } else if q.kind == "numberQuestion" {
      assert ParseType(q.kind) == Some(Number);
      var validators := DefineValidators(q, msgs);
      field := Some(Field(IntegerField, q.text, validators, None));
    } else if q.kind == "multipleChoiceQuestion" {
      assert ParseType(q.kind) == Some(MultipleChoice);
      var validators := DefineValidators(q, msgs);
      var options := ChoiceOptions(q.choices);
      var widget := Widget(CheckboxMultiple, map["class" := q.name, "id" := q.name], options);
      field := Some(Field(MultipleTextField, q.text, validators, Some(widget)));
    } else if q.kind == "singleChoiceQuestion" {
      assert ParseType(q.kind) == Some(SingleChoice);
      var validators := DefineValidators(q, msgs);
      var options := ChoiceOptions(q.choices);
      var widget := Widget(RadioSelect, map["class" := q.name, "id" := q.name], options);
      field := Some(Field(TextField, q.text, validators, Some(widget)));
    } else {
      field := None;
    }
  }

  /** getFields: walks the questions and appends the field of each one with a known tag. */
  method GetFields(questions: seq<Question>, msgs: ErrorMessages) returns (fields: seq<Field>)
    ensures fields == Fields(questions, msgs)
  {
    fields := [];
    for i := 0 to |questions|
      invariant fields == Fields(questions[..i], msgs)
    {
      FieldsPrefix(questions, i, msgs);
      var field := FieldFor(questions[i], msgs);
      if field.Some? {
        fields := fields + [field.value];
      }
    }
    assert questions[..|questions|] == questions;
  }
}
