/** The sign-up screen: six state values edited by the fields, the six validation
    rules attached to those fields, the page-valid flag that the e-mail rule writes,
    and one render pass that feeds the rules' results to the collecting form. */
module ContentScreen {
  import opened PreferenceKey
  import opened ValidationModifier
  import opened TextForm

  /** The picker's placeholder entry, which does not count as a choice. */
  const ChooseCity: string := "Choose City"

  /** The picker's entries, placeholder first. */
  const CityList: seq<string> := [ChooseCity, "İstanbul", "Bursa", "Ankara"]

  /** The six state values the validation rules read. */
  datatype FormState = FormState(
    email: string,
    password: string,
    name: string,
    surname: string,
    agreement: bool,
    selectedCity: string)

  /** E-mail rule: more than six characters, one of them an '@'. */
  function EmailValid(email: string): (r: bool)
    ensures r <==> 7 <= |email| && exists i :: 0 <= i < |email| && email[i] == '@'
  {
    |email| > 6 && '@' in email
  }

  /** Name rule, also applied to the surname: more than three characters. */
  function NameValid(name: string): (r: bool)
    ensures r <==> 4 <= |name|
  {
    |name| > 3
  }

  /** Password rule: more than eight characters. */
  function PasswordValid(password: string): (r: bool)
    ensures r <==> 9 <= |password|
  {
    |password| > 8
  }

  /** City rule: anything but the picker's first entry, the placeholder. */
  function CityValid(city: string): (r: bool)
    ensures r <==> city != CityList[0]
  {
    city != ChooseCity
  }

  /** The six validation closures, over the state they capture, in screen order:
      e-mail, name, surname, password, agreement, city. */
  function FieldValidations(f: FormState): (r: seq<() -> bool>)
    ensures |r| == 6
  {
    [() => EmailValid(f.email), () => NameValid(f.name), () => NameValid(f.surname),
     () => PasswordValid(f.password), () => f.agreement, () => CityValid(f.selectedCity)]
  }

  /** Reference meaning of a valid screen: every field satisfies its rule. */
  predicate FieldsValid(f: FormState) {
    && EmailValid(f.email)
    && NameValid(f.name)
    && NameValid(f.surname)
    && PasswordValid(f.password)
    && f.agreement
    && CityValid(f.selectedCity)
  }

  lemma EvaluatedAllTrue(f: FormState)
    ensures AllTrue(Evaluated(FieldValidations(f))) <==> FieldsValid(f)
  {
    var v := Evaluated(FieldValidations(f));
    assert v[0] == EmailValid(f.email) && v[1] == NameValid(f.name);
    assert v[2] == NameValid(f.surname) && v[3] == PasswordValid(f.password);
    assert v[4] == f.agreement && v[5] == CityValid(f.selectedCity);
    if AllTrue(v) {
      assert v[0] && v[1] && v[2] && v[3] && v[4] && v[5];
    }
  }

  /** The six closures' results in screen order: one per field, all true exactly
      when every field satisfies its rule. */
  function Validations(f: FormState): (r: seq<bool>)
    ensures |r| == 6
    ensures AllTrue(r) <==> FieldsValid(f)
  {
    EvaluatedAllTrue(f);
    Evaluated(FieldValidations(f))
  }

  /** Each rule's boundary case, and the picker's entries. */
  lemma RuleBoundaries()
    ensures !EmailValid("ab@cde") && EmailValid("ab@cdef") && !EmailValid("abcdefgh")
    ensures !NameValid("abc") && NameValid("abcd")
    ensures !PasswordValid("abcdefgh") && PasswordValid("abcdefghi")
    ensures !CityValid(CityList[0])
    ensures forall i :: 1 <= i < |CityList| ==> CityValid(CityList[i])
  {
    assert "ab@cdef"[2] == '@';
    forall i | 0 <= i < 8 ensures "abcdefgh"[i] != '@' {
    }
  }

  /** Background opacity of the Sign Up button, driven by a flag: full when the
      flag is set, half otherwise. */
  function SignUpOpacity(enabled: bool): (r: real)
    ensures r == 1.0 <==> enabled
    ensures r == 0.5 <==> !enabled
  {
    if enabled then 1.0 else 0.5
  }

  /** The Sign Up button's opacity driven by the collecting form's validity check:
      full exactly when no seed is false. */
  function IntendedSignUpOpacity(seeds: Value): (r: real)
    ensures r == 1.0 <==> AllTrue(seeds)
  {
    SignUpOpacity(ContainsNoFalse(seeds))
  }

  /** Driven by the collected seeds, the button is at full opacity exactly when
      every field satisfies its rule. */
  lemma IntendedSignUpTracksForm(f: FormState)
    ensures IntendedSignUpOpacity(Validations(f)) == 1.0 <==> FieldsValid(f)
  {
  }

  /** After one render pass of a screen whose e-mail alone is valid, the button
      driven by the page-valid flag is at full opacity while the collecting form
      holds five false seeds and reports invalid. */
  method EmailAloneLightsSignUp() returns (screen: ContentView, form: TextFormView)
    ensures screen.ButtonOpacity() == 1.0
    ensures form.validationSeeds == [true, false, false, false, false, false]
    ensures !form.IsValid()
  {
    screen := new ContentView();
    screen.email := "ab@cdef";
    form := new TextFormView();
    screen.Body(form);
    assert "ab@cdef"[2] == '@';
    var v := Validations(screen.Fields());
    assert v[0] && !v[1] && !v[2] && !v[3] && !v[4] && !v[5];
  }

  class ContentView {
    var email: string
    var password: string
    var name: string
    var surname: string
    var agreement: bool
    var selectedCity: string
    var isPageValid: bool

    /** Background opacity of the Sign Up button as rendered: read from the
        page-valid flag. */
    function ButtonOpacity(): (r: real)
      reads this
      ensures r == 1.0 <==> isPageValid
    {
      SignUpOpacity(isPageValid)
    }

    /** The six state values as one record. */
    function Fields(): FormState
      reads this
    {
      FormState(email, password, name, surname, agreement, selectedCity)
    }

    /** Empty texts, agreement off, the placeholder city, and the page not valid. */
    constructor ()
      ensures Fields() == FormState("", "", "", "", false, ChooseCity)
      ensures !isPageValid
    {
      email, password, name, surname := "", "", "", "";
      agreement, selectedCity := false, ChooseCity;
      isPageValid := false;
    }

    /** The e-mail field's validation closure: computes the rule and, as a side
        effect, stores the result in the page-valid flag. */
    method ValidateEmail() returns (value: bool)
      modifies this`isPageValid
      ensures value == EmailValid(email)
      ensures isPageValid == value
    {
      value := EmailValid(email);
      isPageValid := value;
    }

    /** One render pass of the screen inside the collecting form: the six decorated
        fields publish their results in screen order, the contributions are folded
        with the key's reduce rule, and the aggregate is delivered to the form.
        The page-valid flag ends up holding the e-mail rule alone. */
    method Body(form: TextFormView)
      modifies this`isPageValid, form
      ensures isPageValid == EmailValid(email)
      ensures form.validationSeeds == Validations(Fields())
      ensures form.IsValid() <==> FieldsValid(Fields())
    {
      var emailOk := ValidateEmail();
      var state := Fields();
      var value := Collect(Emitted(FieldValidations(state)));
      FieldsAggregate(FieldValidations(state));
      form.OnPreferenceChange(value);
    }
  }
}
