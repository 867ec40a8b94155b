/// The preferences form (`components/onboarding-form.tsx`): three text
/// fields holding exactly what was typed, a submit guard that trims them,
/// and the submit button's disabled condition.
module OnboardingForm {
  import opened Wrappers
  import opened Strings
  import opened ProductTypes
  import Recommend

  class Form {
    var income: string
    var occupation: string
    var purpose: string

    constructor ()
      ensures income == "" && occupation == "" && purpose == ""
    {
      income := "";
      occupation := "";
      purpose := "";
    }

    /** The three `onChange` setters store the raw text. */
    method SetIncome(t: string)
      modifies this`income
      ensures income == t
    {
      income := t;
    }

    method SetOccupation(t: string)
      modifies this`occupation
      ensures occupation == t
    {
      occupation := t;
    }

    method SetPurpose(t: string)
      modifies this`purpose
      ensures purpose == t
    {
      purpose := t;
    }

    /** `isLoading || !income.trim() || !occupation.trim() || !purpose.trim()`. */
    predicate SubmitDisabled(isLoading: bool)
      reads this
    {
      isLoading || IsBlank(income) || IsBlank(occupation) || IsBlank(purpose)
    }

    /**
     * `handleSubmit`: the value passed to `onSubmit`, or `None` when it returns early.
     * It is called exactly when no field is blank, with every field trimmed.
     */
    method HandleSubmit() returns (submitted: Option<Recommend.Profile>)
      ensures submitted.None? <==> IsBlank(income) || IsBlank(occupation) || IsBlank(purpose)
      ensures submitted.Some? ==>
                submitted.value == Recommend.Profile(Trim(income), Trim(occupation), Trim(purpose))
    {
      if IsBlank(income) || IsBlank(occupation) || IsBlank(purpose) {
        return None;
      }
      submitted := Some(Recommend.Profile(Trim(income), Trim(occupation), Trim(purpose)));
    }
  }

  /** The JSON body the panel posts for a submitted profile. */
  function ProfileJson(p: Recommend.Profile): JsValue {
    JsObject(map["income" := JsString(p.income), "occupation" := JsString(p.occupation), "purpose" := JsString(p.purpose)])
  }

  /** The trimmed text of a non-blank field has neither leading nor trailing whitespace and is not empty. */
  lemma TrimmedField(t: string)
    requires !IsBlank(t)
    ensures |Trim(t)| >= 1 && Trim(Trim(t)) == Trim(t)
  {
    TrimIdempotent(t);
  }

  /** A profile of three non-empty strings passes the recommend route's request check and comes back unchanged. */
  lemma ProfileAccepted(p: Recommend.Profile)
    requires |p.income| >= 1 && |p.occupation| >= 1 && |p.purpose| >= 1
    ensures Recommend.ParseRequest(ProfileJson(p)) == Some(p)
  {
    assert "income"[0] == 'i' && "occupation"[0] == 'o' && "purpose"[0] == 'p';
    var f := ProfileJson(p).fields;
    assert f["income"] == JsString(p.income);
    assert f["occupation"] == JsString(p.occupation);
    assert f["purpose"] == JsString(p.purpose);
  }

  /** Whatever the form submits passes the recommend route's request check and comes back from it unchanged. */
  lemma SubmittedProfileAccepted(income: string, occupation: string, purpose: string)
    requires !IsBlank(income) && !IsBlank(occupation) && !IsBlank(purpose)
    ensures var p := Recommend.Profile(Trim(income), Trim(occupation), Trim(purpose));
            Recommend.ParseRequest(ProfileJson(p)) == Some(p)
  {
    TrimmedField(income);
    TrimmedField(occupation);
    TrimmedField(purpose);
    ProfileAccepted(Recommend.Profile(Trim(income), Trim(occupation), Trim(purpose)));
  }

  /**
   * Filling the form: the fields keep the raw text, the button is enabled exactly when
   * no field is blank, and then pressing it submits the trimmed values, which the
   * recommend route accepts.
   */
  method FillAndSubmit(income: string, occupation: string, purpose: string)
    returns (stored: (string, string, string), disabled: bool, submitted: Option<Recommend.Profile>)
    ensures stored == (income, occupation, purpose)
    ensures disabled <==> submitted.None?
    ensures submitted.Some? ==> Recommend.ParseRequest(ProfileJson(submitted.value)) == submitted
  {
    var form := new Form();
    form.SetIncome(income);
    form.SetOccupation(occupation);
    form.SetPurpose(purpose);
    stored := (form.income, form.occupation, form.purpose);
    disabled := form.SubmitDisabled(false);
    submitted := form.HandleSubmit();
    if submitted.Some? {
      SubmittedProfileAccepted(income, occupation, purpose);
    }
  }
}
