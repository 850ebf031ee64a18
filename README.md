# go-questionnaire: form construction core in Dafny

This project models the schema-to-form layer of `questionnaire.go`, a small Go
service that serves a localized questionnaire over HTTP. The model covers:

- **Locale resolution.** `getLocale` maps any token to one of the supported
  locales `en` and `ar`. Anything it does not know becomes `en`. The handler
  takes the token from the request path: it is everything after the first `/`.
- **Validator chains.** `defineValidators` gives a question an optional
  `Required` validator first, then an optional `MaxLength` one. The
  `MaxLength` message is the locale's `maxChars` template with the limit
  filled in.
- **Field building.** `getFields` turns each question with one of the four
  known type tags into a field, in question order, and drops the rest. Choice
  questions also get a widget: its `class` and `id` are the question name, and
  its option list has one `[v, v, "false", "false"]` row per choice.
- **Answer record naming.** The submission time is printed as
  `Y-MM-DDTHH:MM:SS` and the answers go to `dir/<stamp>.json`. This is the
  extended layout of a complete date and time in section 4.3.2 of
  ISO 8601:2004, except that the year is not padded and no time zone is given.

Modules, one per component:

- `Wrappers` (wrappers.dfy): `Option`.
- `Format` (format.dfy): Go's `%d`, `%02d`, and `Sprintf` with one `%d`
  placeholder.
- `Locale` (locale.dfy): `getLocale` and the path token.
- `Forms` (forms.dfy): questions, validators, fields, `defineValidators`,
  `getFields` and the option builders.
- `Answers` (answers.dfy): the timestamp and the file name.

The code works by changing variables step by step, so the model does too.
`GetLocale`, `DefineValidators`, `ChoiceOptions`, `FieldFor` and `GetFields`
are methods with loops or conditional appends. Each one is proved equal to a
reference function: `Resolve`, `ValidatorChain`, `OptionRows`, `BuildField`
and `Fields`. The lemmas state their properties about those functions. The
path token and the record name are pure expressions in the program, so they
are functions here.

Inputs that the program reads from disk are parameters here. The per-locale
error messages become an `ErrorMessages` record. The question list becomes a
`seq<Question>`.

Points where the code's behaviour is easy to misread:

- A single-choice question becomes a *text* field with a radio widget, as
  `gforms.NewTextField` is called at line 104. It is not a separate selection
  field kind.
- An unknown type tag is dropped silently. No warning is recorded.
- The locale token is everything after the first `/`, not the first path
  segment. So `/ar/x` gives the token `ar/x`, which resolves to `en`.
- A path with no `/` makes the handler panic: it indexes the second piece of a
  one-piece split. `LocaleToken` and `PathLocale` return `None` there.

## Model

| member | source | states |
|---|---|---|
| Locale.Resolve | questionnaire.go:57-66 | reference definition of `getLocale`: the result is `en` or `ar`, and equals the token exactly when the token is a supported locale |
| Locale.GetLocale | questionnaire.go:57-66 | the loop over the supported locales returns the token when it is one of them and the default `en` otherwise |
| Locale.ResolveIsSupported | questionnaire.go:57-66 | resolution always yields `en` or `ar`; it returns its input exactly when the input is `en` or `ar`; anything else, `""` included, gives `en`; resolving twice changes nothing |
| Locale.SplitAfterFirstSlash | questionnaire.go:157 | `SplitAfterN(path, "/", 2)`: no second piece exactly when the path has no `/`; otherwise the two pieces concatenate to the path, and the first ends at the first `/` |
| Locale.LocaleToken | questionnaire.go:157 | `SplitAfterN(path, "/", 2)[1]`: none exactly when the path has no `/`; otherwise a proper suffix of the path that directly follows a `/`, with no `/` before that one |
| Locale.LocaleTokenAfterFirstSlash | questionnaire.go:157 | for any prefix without `/`, the token of `prefix + "/" + rest` is `rest`, whatever `rest` holds |
| Locale.PathLocale | questionnaire.go:157-158 | a request path yields a supported locale, and the handler fails exactly when the path has no `/` |
| Locale.PathLocaleOfToken | questionnaire.go:157-158 | the path `/` + token is served in the locale the token resolves to, whatever the token holds |
| Locale.PathLocaleExamples | questionnaire.go:157-158 | `/ar` gives `ar`; `/` gives `en` (empty token); `/ar/x` and `/xx` give `en`; the empty path gives no locale |
| Format.Decimal | questionnaire.go:195-197 | `%d` of a non-negative number: a non-empty string of digits with no leading zero unless the number is 0; one digit exactly below 10, two from 10 to 99 |
| Format.DecimalRoundTrip | questionnaire.go:195-197 | reading back the digits `%d` prints for a non-negative number gives that number |
| Format.IntToString | questionnaire.go:195-196 | `%d` of an int: the digits of a non-negative value, or `-` and the digits of its magnitude; never contains `/` |
| Format.IntToStringInjective | questionnaire.go:195-196 | `%d` prints two ints the same exactly when they are equal, negative years included |
| Format.Pad2 | questionnaire.go:195-197 | `%02d` of a non-negative number: digits only, exactly two of them below 100 |
| Format.Pad2RoundTrip | questionnaire.go:195-197 | reading back the digits `%02d` prints for a non-negative number gives that number, leading zero included |
| Format.SubstituteFirst | questionnaire.go:50 | in a template whose only `%` is one `%d`, that `%d` is replaced by the value and the text on both sides is kept |
| Format.SubstituteNone | questionnaire.go:50 | a template with no `%` is kept, and the leftover-argument notice is appended |
| Format.FormatIntSubstitutes | questionnaire.go:50 | for a `maxChars` template whose only `%` is one `%d`, `Sprintf(maxChars, n)` is the text before the `%d`, then `n` in decimal, then the text after it |
| Format.FormatInt | questionnaire.go:50 | `Sprintf(template, n)`; a template with no `%` is copied and Go's `%!(EXTRA int=n)` notice is appended |
| Forms.ParseType | questionnaire.go:74-120 | a tag the builder knows names exactly one question kind, and that kind's tag is the tag |
| Forms.KnownTags | questionnaire.go:74-120 | the builder knows exactly the four tags `textBoxQuestion`, `numberQuestion`, `multipleChoiceQuestion` and `singleChoiceQuestion` |
| Forms.ValidatorChain | questionnaire.go:43-53 | reference definition of the chain: one entry for a required question plus one for a given limit, and no others |
| Forms.ChainShape | questionnaire.go:43-53 | the chain has one entry if the question is required plus one if a limit is given, and no others; it has a `Required` entry exactly when the question is required, and then that entry, at index 0, carries the locale's `required` message; it has a `MaxLength` entry exactly when a limit is given, and then the last entry holds that limit and the `maxChars` template formatted with it; every `Required` entry comes before every `MaxLength` entry |
| Forms.DefineValidators | questionnaire.go:36-54 | the conditional appends build exactly the reference validator chain of the question |
| Forms.OptionRows | questionnaire.go:93-118 | for both choice closures (lines 93-100 and 111-118), the option list has one row per choice, in declaration order, and row `i` is `[choice_i, choice_i, "false", "false"]` |
| Forms.ChoiceOptions | questionnaire.go:93-118 | for both choice closures (lines 94-99 and 112-117), the loop over the choices builds exactly the reference option list |
| Forms.BuildField | questionnaire.go:74-120 | reference definition of one case of the switch: a field exactly when the tag is known, carrying the question text and the question's validator chain |
| Forms.BuildFieldShape | questionnaire.go:74-120 | a question gives a field exactly when its tag is known, with the question text and the question's validator chain. A text box gives a text field with no widget, and a number question an integer field with no widget. A multiple-choice question gives a multi-text field with a checkbox widget, and a single-choice question a text field with a radio widget. A widget's attributes are exactly `class` and `id`, both equal to the question name, and its options have one `[c, c, "false", "false"]` row per choice |
| Forms.FieldFor | questionnaire.go:74-121 | the switch on the type tag builds exactly the reference field of the question, and nothing for an unknown tag |
| Forms.GetFields | questionnaire.go:69-124 | the loop over the questions builds exactly the reference field list |
| Forms.Fields | questionnaire.go:70-123 | reference definition of the field list: each question contributes its field if it has one, in question order, so there are never more fields than questions |
| Forms.FieldsFollowKnownQuestions | questionnaire.go:72-123 | there is one field per question with a known tag. Field `j` is the one built from the `j`-th such question. The positions of those questions increase strictly, so question order is kept |
| Forms.FieldsConcat | questionnaire.go:72-123 | the fields of two question lists joined are the fields of the first followed by the fields of the second |
| Forms.UnknownQuestionDropped | questionnaire.go:74-121 | inserting a question with an unknown tag anywhere leaves the field list unchanged |
| Answers.Stamp | questionnaire.go:195-197 | the `Y-MM-DDTHH:MM:SS` stamp: it never contains `/`, and with two-digit components it is 15 characters longer than the year |
| Answers.RecordName | questionnaire.go:198 | the file name is the directory, `/`, the stamp and `.json`, each read back at its position |
| Answers.StampLayout | questionnaire.go:195-197 | the stamp is the year, then `-` at offset 0, `-` at 3, `T` at 6, `:` at 9 and `:` at 12 after it. Between these separators come two digits each that read back as month, day, hour, minute and second |
| Answers.ClockSuffixInjective | questionnaire.go:195-197 | two clock parts `-MM-DDTHH:MM:SS` are equal only when month, day, hour, minute and second are all equal |
| Answers.RecordNameIdentifiesSecond | questionnaire.go:195-198 | two answer file names are equal exactly when the directories are equal and the two times fall in the same second; times differing in any printed component give different names |
| Answers.SameSecondCollides | questionnaire.go:195-198 | submissions in the same second, whatever their sub-second parts, are written to the same file name |

## Left out

- HTTP handling is not part of this model, because it is transport plumbing. This covers `questionnaireHandler`'s request and response, GET/POST dispatch, `http.HandleFunc`, `ListenAndServe`, `main` and the command-line flags (lines 18-22, 155-156, 171-188, 209-214). The answers directory is a parameter instead of a flag.
- Reading and decoding `messages.json` and `questions.json` (lines 37-41, 45, 127-134, 161-165, 168) are left out, because they are file I/O. The message table and the question list are parameters instead. The `interface{}` type assertions and the `check`/`panic` on malformed input are decoding failures, so questions are well-typed records. A choice question always has a `choices` list, and a missing `required` flag cannot occur.
- The gforms library is not part of this model, because its code is not available. Fields, validators and widgets are abstract datatypes. The model says nothing about what `Required`, `MaxLength` or the integer field accept, nor about `IsValid`, `CleanedData` or rendering.
- `maxLength` arrives as a `float64` and is truncated by `int(v)` (line 49-50). This is floating point, so the model takes the limit as a natural number.
- Format.FormatInt: this is `fmt.Sprintf` only for templates whose one directive is `%d`. It does not model `%%` escapes, other verbs, a second `%d`, or a trailing lone `%`.
- The thank-you message and its template (lines 126-145, 203-205) are left out, because they are template rendering. So are the HTML templates and `StringToHTML` (lines 30-33, 147-153, 177-186).
- `time.Now()` is called six times (lines 195-197), so the six components may come from different seconds. This is wall-clock I/O, so the model takes a single `DateTime` reading as input.
- Creating the answer file, writing it, and `json.Marshal` of the cleaned data (lines 192-201) are left out, because they are file I/O and library serialisation.
- What happens when two concurrent submissions in the same second overwrite each other is left out, because it is concurrency. Only the name collision is captured, by `Answers.SameSecondCollides`.
- Answers.RecordNameIdentifiesSecond: requires every component after the year to be below 100. A real clock reading always meets this. At 100 or more, `%02d` prints more than two digits and the fixed layout is lost.
