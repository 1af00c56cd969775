# SwiftUI form validation, modelled in Dafny

The app is one sign-up screen (`ContentView`). Each editable field carries a
validation closure through `.validate { … }`, which wraps it in a
`ValidationModifier`. On every render, that modifier publishes the closure's
result as a one-element `[Bool]` under `ValidationPreferenceKey`. The key's
default value is `[]` and its `reduce` appends (`value += nextValue()`). The
enclosing `TextFormView` receives the reduced array in `onPreferenceChange` and
stores it in its `validationSeeds` state. Its validity closure reports
`!validationSeeds.contains(false)`. Separately, the e-mail closure writes its own
result into the screen's `isPageValid` flag, and that flag alone sets the Sign Up
button's opacity.

The model has four modules, one per component of `SwiftUI_Validation/ContentView.swift`:

- `PreferenceKey` (`preference_key.dfy`): the key's default value, the reduce rule
  as a function (`Combine`) and as an in/out method (`Reduce`), and the left fold
  of the rule over an ordered list of child contributions (`Aggregate`). It also
  has a method that performs that fold by calling `Reduce` once per child
  (`Collect`). Plain concatenation (`Concat`) serves as the independent reference.
- `ValidationModifier` (`validation_modifier.dfy`): the singleton contribution of
  one decorated view, and what a list of decorated views aggregates to.
- `TextForm` (`text_form_view.dfy`): the collector as a class. It has the
  `validationSeeds` field, `OnPreferenceChange`, which overwrites the field, and
  `IsValid`. It also holds the lemmas about "all true".
- `ContentScreen` (`content_view.dfy`): the six field rules over the screen's
  state, the screen as a class whose e-mail closure writes `isPageValid`, one
  render pass (`Body`) that feeds the six results through the key to a
  `TextFormView`, and the Sign Up button's opacity.

How the model departs from the code:

- SwiftUI's preference propagation is framework code. It is modelled as an
  explicit, ordered list of child contributions folded with `reduce` from the
  default. The order is the screen order: e-mail, name, surname, password,
  agreement, city.
- The e-mail closure has a side effect, and a Dafny arrow cannot have one. So
  `ContentView.ValidateEmail` runs first as a method, performing the write to
  `isPageValid`. The closure that publishes the e-mail's contribution
  (`FieldValidations`) then computes the same rule without the write.
- `nextValue` is a thunk in Swift and is modelled as a total arrow
  `() -> seq<bool>`, evaluated once.
- The six `@State` values are grouped into a `FormState` record, read through
  `ContentView.Fields()`.

## Model

| member | source | states |
|---|---|---|
| `PreferenceKey.DefaultValue` | SwiftUI_Validation/ContentView.swift:77 | The key's default value is the empty array. |
| `PreferenceKey.Combine` | SwiftUI_Validation/ContentView.swift:79-81 | The reduced value has length `|value| + |next|`. Its prefix of that length is the old value, unchanged. The rest is `next`, in order. |
| `PreferenceKey.Reduce` | SwiftUI_Validation/ContentView.swift:79-81 | The in/out update `value += nextValue()`: the new value is the old value followed by the thunk's result. Its length is the sum of both lengths, and the old prefix is unchanged. |
| `PreferenceKey.CombineIdentity` | SwiftUI_Validation/ContentView.swift:77-81 | The default `[]` is a neutral element of reduce, on both sides. |
| `PreferenceKey.CombineAssociative` | SwiftUI_Validation/ContentView.swift:79-81 | Reduce is associative. |
| `PreferenceKey.AggregateEmpty` | SwiftUI_Validation/ContentView.swift:77 | Folding zero children gives the default value `[]`. |
| `PreferenceKey.AggregateSingle` | SwiftUI_Validation/ContentView.swift:77-81 | One child alone aggregates to its own contribution. |
| `PreferenceKey.FoldFromIsConcat` | SwiftUI_Validation/ContentView.swift:79-81 | Folding reduce from any starting value appends the children's concatenation to that value. |
| `PreferenceKey.Aggregate` | SwiftUI_Validation/ContentView.swift:77-81 | The left fold of reduce from the default over the children (`FoldFrom`) equals the children's arrays concatenated in order. |
| `PreferenceKey.AggregateSplit` | SwiftUI_Validation/ContentView.swift:77-81 | Splitting the children anywhere and reducing the two partial aggregates gives the same result as folding all of them. |
| `PreferenceKey.AggregateRegrouped` | SwiftUI_Validation/ContentView.swift:77-81 | However the children are grouped behind intermediate views, folding the groups' partial aggregates gives the flat aggregate. The result does not depend on grouping. |
| `PreferenceKey.Collect` | SwiftUI_Validation/ContentView.swift:77-81 | Starting from the default and calling `Reduce` once per child, in order, yields the concatenation of the children. That is the fold `Aggregate`. |
| `ValidationModifier.Contribution` | SwiftUI_Validation/ContentView.swift:87-89 | A decorated view contributes exactly one element, equal to its closure's result. |
| `ValidationModifier.FieldsAggregate` | SwiftUI_Validation/ContentView.swift:87-89 | n decorated views aggregate to an array of exactly n elements. The i-th element is the i-th view's closure result. |
| `TextForm.TextFormView.constructor` | SwiftUI_Validation/ContentView.swift:115 | The seeds start as the empty array, which is the key's default. |
| `TextForm.ContainsNoFalse` | SwiftUI_Validation/ContentView.swift:123 | The check "the array does not contain `false`" holds exactly when every element is true. |
| `TextForm.TextFormView.IsValid` | SwiftUI_Validation/ContentView.swift:120-123 | The validity closure, `!validationSeeds.contains(false)`, holds exactly when every seed is true. |
| `TextForm.TextFormView.OnPreferenceChange` | SwiftUI_Validation/ContentView.swift:124-127 | The delivered value replaces the seeds; nothing is accumulated. The new state does not depend on the old one, so delivering the same value twice leaves the same state. |
| `TextForm.EmptyIsValid` | SwiftUI_Validation/ContentView.swift:115-123 | The initial, empty seeds report valid. |
| `TextForm.AllTrueCombine` | SwiftUI_Validation/ContentView.swift:80-123 | Validity of a reduced pair is the conjunction of the two parts' validity, in both directions. |
| `TextForm.AllTrueAggregate` | SwiftUI_Validation/ContentView.swift:77-123 | The aggregate of the children reports valid exactly when every child's contribution does. |
| `TextForm.ValidityOrderIndependent` | SwiftUI_Validation/ContentView.swift:77-123 | Reordering the children (any permutation) does not change the reported validity. |
| `ContentScreen.EmailValid` | SwiftUI_Validation/ContentView.swift:26 | The e-mail is valid exactly when it has at least seven characters and some position holds `@`. |
| `ContentScreen.NameValid` | SwiftUI_Validation/ContentView.swift:33-39 | The name (and, at line 39, the surname) is valid exactly when it has at least four characters. |
| `ContentScreen.PasswordValid` | SwiftUI_Validation/ContentView.swift:45 | The password is valid exactly when it has at least nine characters. |
| `ContentScreen.CityValid` | SwiftUI_Validation/ContentView.swift:59 | The selected city is valid exactly when it is not the picker's first entry, the placeholder `"Choose City"` of line 17. |
| `ContentScreen.FieldValidations` | SwiftUI_Validation/ContentView.swift:25-60 | The screen has exactly six validation closures, in screen order: e-mail, name, surname, password, agreement, city. |
| `ContentScreen.RuleBoundaries` | SwiftUI_Validation/ContentView.swift:17-59 | These are the boundary cases of the rules. E-mail: 6 characters with `@` fails, 7 passes, 8 without `@` fails. Name and surname: 3 characters fail, 4 pass. Password: 8 fail, 9 pass. City: the placeholder `"Choose City"` fails and each real city in the list passes. |
| `ContentScreen.Validations` | SwiftUI_Validation/ContentView.swift:25-60 | The six closures' results form an array of exactly six elements, one per field. It is all true exactly when the e-mail, name, surname, password, agreement and city rules all hold. |
| `ContentScreen.SignUpOpacity` | SwiftUI_Validation/ContentView.swift:65 | The button's background is at opacity 1.0 exactly when the flag is set and at 0.5 exactly when it is not. |
| `ContentScreen.EmailAloneLightsSignUp` | SwiftUI_Validation/ContentView.swift:28-65 | Start from a fresh screen, set the e-mail to `"ab@cdef"` and run one render pass. The button is then at full opacity, while the form's seeds are `[true, false, false, false, false, false]` and it reports invalid. |
| `ContentScreen.IntendedSignUpOpacity` | SwiftUI_Validation/ContentView.swift:22-65 | Driven by the collector's validity closure, the button is at full opacity exactly when every seed is true. |
| `ContentScreen.IntendedSignUpTracksForm` | SwiftUI_Validation/ContentView.swift:22-65 | Driven by the collected seeds, the button is at full opacity exactly when all six field rules hold. |
| `ContentScreen.ContentView.constructor` | SwiftUI_Validation/ContentView.swift:11-19 | The screen starts with empty texts, the agreement off, the placeholder city selected and `isPageValid` false. |
| `ContentScreen.ContentView.ButtonOpacity` | SwiftUI_Validation/ContentView.swift:65 | The rendered button's background is at full opacity exactly when the screen's `isPageValid` flag is set. |
| `ContentScreen.ContentView.ValidateEmail` | SwiftUI_Validation/ContentView.swift:25-30 | The e-mail closure returns the e-mail rule's result and stores that same value in `isPageValid`. Nothing else changes. |
| `ContentScreen.ContentView.Body` | SwiftUI_Validation/ContentView.swift:21-60 | One render pass works as follows. The form's seeds become exactly the six rule results in screen order, and the form reports valid exactly when all six rules hold. `isPageValid` holds the e-mail rule alone, whatever the other fields hold. The screen's field values are unchanged. |

## Findings

| source | as written | input that shows it | evidently intended | confidence | as-written member | corrected member |
|---|---|---|---|---|---|---|
| SwiftUI_Validation/ContentView.swift:28-65 | The Sign Up button's opacity reads `isPageValid`, which only the e-mail closure writes. The `isValid` closure handed to the content at line 22 is never read. | E-mail `"ab@cdef"` with every other field empty, the agreement off and `"Choose City"` selected. The button is at full opacity while five of the six seeds are false. | The button follows the collector's `isValid()`. It is at full opacity exactly when all six rules hold. | medium; not executed | `ContentScreen.EmailAloneLightsSignUp` | `ContentScreen.IntendedSignUpTracksForm` |

## Left out

- View construction, layout and styling (`VStack`, `Spacer`, padding, corner radius, foreground colour, `#Preview`). These are presentation only. Of the button, only the opacity rule is modelled.
- SwiftUI's preference propagation and re-render scheduling live in the framework. The model replaces them with one explicit, ordered list of contributions per render pass. It does not capture that `onPreferenceChange` fires only when the aggregate changes, nor that writing `isPageValid` schedules a further render.
- The `print` calls in the closures and in the validity closure (lines 27, 34, 40, 46, 121) are output only.
- The `Validatable` protocol and its conformances (lines 93-110). They only wrap a view with `ValidationModifier`, which is modelled.
- `ContentScreen.EmailValid`: Swift's `String.count` counts grapheme clusters and `contains("@")` searches the text. Here strings are sequences of Unicode scalars, so `count` is the sequence length and `contains` is membership of the character `@`. The two agree for a one-character needle, up to grapheme clustering.
- `ContentScreen.NameValid`: the same simplification applies. Its length is the number of Unicode scalars, not of grapheme clusters, so a decomposed "é" counts as two characters here and as one in Swift.
- `ContentScreen.PasswordValid`: the same simplification applies. Its length is the number of Unicode scalars, not of grapheme clusters.
- The picker's binding of `selectedCity` to an entry of `cityList` is not modelled. The city rule is stated for any string.
