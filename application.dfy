/** The application form: its product catalogue, the default product, the
    term options, the validation schema, and the four-step wizard. */
module Application {
  import opened Wrappers
  import opened Seqs

  /** One entry of the `productTypes` catalogue (icon and description left out; `label` is `productLabel` here). */
  datatype ProductOffer = ProductOffer(value: string, productLabel: string, minAmount: int, maxAmount: int, terms: seq<int>)

  const Catalogue: seq<ProductOffer> := [
    ProductOffer("LINE_OF_CREDIT", "Line of Credit", 10000, 500000, [6, 12, 18, 24, 36]),
    ProductOffer("EQUIPMENT_FINANCE", "Equipment Finance", 25000, 1000000, [24, 36, 48, 60, 72]),
    ProductOffer("TERM_LOAN", "Term Loan", 50000, 2000000, [12, 24, 36, 48, 60])]

  /** `productTypes.find(p => p.value === selectedProductType)`: the first offer with that code. */
  function FindProduct(offers: seq<ProductOffer>, code: string): (r: Option<ProductOffer>)
    ensures r.None? <==> forall i :: 0 <= i < |offers| ==> offers[i].value != code
    ensures r.Some? ==> exists k :: 0 <= k < |offers| && offers[k] == r.value && r.value.value == code
                          && forall j :: 0 <= j < k ==> offers[j].value != code
    decreases |offers|
  {
    if |offers| == 0 then None
    else if offers[0].value == code then Some(offers[0])
    else
      var rest := FindProduct(offers[1..], code);
      if rest.Some? then
        var k :| 0 <= k < |offers[1..]| && offers[1..][k] == rest.value && rest.value.value == code
                 && forall j :: 0 <= j < k ==> offers[1..][j].value != code;
        assert offers[k + 1] == rest.value;
        rest
      else rest
  }

  /** `selectedProduct?.terms?.map(...)`: the terms offered in the drop-down,
      none when the product is not in the catalogue. */
  function TermOptions(productType: string): seq<int>
  {
    match FindProduct(Catalogue, productType)
    case Some(p) => p.terms
    case None => []
  }

  /** The terms offered are exactly the selected product's list. */
  lemma TermOptionsOfEachProduct(productType: string)
    ensures productType == "LINE_OF_CREDIT" ==> TermOptions(productType) == [6, 12, 18, 24, 36]
    ensures productType == "EQUIPMENT_FINANCE" ==> TermOptions(productType) == [24, 36, 48, 60, 72]
    ensures productType == "TERM_LOAN" ==> TermOptions(productType) == [12, 24, 36, 48, 60]
    ensures TermOptions(productType) == [] <==>
              productType !in ["LINE_OF_CREDIT", "EQUIPMENT_FINANCE", "TERM_LOAN"]
  {
    var r := FindProduct(Catalogue, productType);
    if r.Some? {
      assert r.value == Catalogue[0] || r.value == Catalogue[1] || r.value == Catalogue[2];
    } else {
      assert Catalogue[0].value != productType && Catalogue[1].value != productType
          && Catalogue[2].value != productType;
    }
  }

  /** `initialProductType || "LINE_OF_CREDIT"`: an absent or empty initial
      product falls back to the line of credit. */
  function DefaultProductType(initialProductType: Option<string>): (r: string)
    ensures r != ""
    ensures initialProductType.Some? && initialProductType.value != "" ==> r == initialProductType.value
    ensures initialProductType.None? || initialProductType.value == "" ==> r == "LINE_OF_CREDIT"
  {
    if initialProductType.Some? && initialProductType.value != "" then initialProductType.value
    else "LINE_OF_CREDIT"
  }

  /** The fields of the form that carry a rule. */
  datatype Field =
    | ProductType | RequestedAmount | PurposeOfLoan | BusinessName | BusinessType
    | YearsInBusiness | AnnualRevenue | MonthlyRevenue | PreferredTerm | ContactName
    | ContactEmail | ContactPhone | BusinessAddress | BusinessCity | BusinessState | BusinessZip

  /** A rule of `applicationSchema` on one text field of the form. */
  datatype Rule =
    | OneOf(field: Field, options: seq<string>)
    | MinLength(field: Field, min: nat)
    | Email(field: Field)

  const ProductCodes: seq<string> := ["LINE_OF_CREDIT", "EQUIPMENT_FINANCE", "TERM_LOAN"]

  /** The rules in schema order. The optional fields carry no rule. */
  const Schema: seq<Rule> := [
    OneOf(ProductType, ProductCodes),
    MinLength(RequestedAmount, 1),
    MinLength(PurposeOfLoan, 10),
    MinLength(BusinessName, 2),
    MinLength(BusinessType, 2),
    MinLength(YearsInBusiness, 1),
    MinLength(AnnualRevenue, 1),
    MinLength(MonthlyRevenue, 1),
    MinLength(PreferredTerm, 1),
    MinLength(ContactName, 2),
    Email(ContactEmail),
    MinLength(ContactPhone, 10),
    MinLength(BusinessAddress, 5),
    MinLength(BusinessCity, 2),
    MinLength(BusinessState, 2),
    MinLength(BusinessZip, 5)]

  /** The message shown under a field whose value is present but breaks its
      rule: the schema's own text, "Required" for the amounts, years and term,
      and `None` for zod's default message on the product type. An undefined
      value shows zod's "Required" instead. */
  function Message(field: Field): Option<string>
  {
    match field
    case PurposeOfLoan => Some("Please provide more details about the purpose")
    case BusinessName => Some("Business name is required")
    case BusinessType => Some("Business type is required")
    case ContactName => Some("Contact name is required")
    case ContactEmail => Some("Valid email is required")
    case ContactPhone => Some("Valid phone number is required")
    case BusinessAddress => Some("Business address is required")
    case BusinessCity => Some("City is required")
    case BusinessState => Some("State is required")
    case BusinessZip => Some("Valid ZIP code is required")
    case ProductType => None
    case _ => Some("Required")
  }

  /** Whether the form's values (absent fields are `undefined`) meet one rule.
      zod's e-mail check is a parameter. */
  predicate Satisfies(form: map<Field, string>, isEmail: string -> bool, r: Rule)
  {
    r.field in form &&
    match r
    case OneOf(f, options) => form[f] in options
    case MinLength(f, min) => |form[f]| >= min
    case Email(f) => isEmail(form[f])
  }

  /** The rules the form breaks, in schema order; `Message` gives the text shown for each. */
  function Failing(form: map<Field, string>, isEmail: string -> bool): seq<Rule>
  {
    Filter(Schema, (r: Rule) => !Satisfies(form, isEmail, r))
  }

  predicate HasAtLeast(form: map<Field, string>, field: Field, min: nat)
  {
    field in form && |form[field]| >= min
  }

  /** No rule fails exactly when every rule of the schema holds. */
  lemma FailingEmptyIff(form: map<Field, string>, isEmail: string -> bool)
    ensures Failing(form, isEmail) == [] <==>
              forall i :: 0 <= i < |Schema| ==> Satisfies(form, isEmail, Schema[i])
  {
    var broken := (r: Rule) => !Satisfies(form, isEmail, r);
    if Failing(form, isEmail) != [] {
      assert !Satisfies(form, isEmail, Filter(Schema, broken)[0]);
      assert Filter(Schema, broken)[0] in Schema;
    }
  }

  /** The form is accepted exactly when the product is one of the three, the
      e-mail passes, and every text field is long enough: 10 characters for the
      purpose and the phone, 5 for the address and the ZIP code, 2 for the
      business name and type, the contact name, the city and the state, and
      one for the amounts, the years in business and the term. */
  lemma SchemaAccepts(form: map<Field, string>, isEmail: string -> bool)
    ensures Failing(form, isEmail) == [] <==>
              ProductType in form && form[ProductType] in ProductCodes
              && ContactEmail in form && isEmail(form[ContactEmail])
              && HasAtLeast(form, PurposeOfLoan, 10) && HasAtLeast(form, ContactPhone, 10)
              && HasAtLeast(form, BusinessAddress, 5) && HasAtLeast(form, BusinessZip, 5)
              && HasAtLeast(form, BusinessName, 2) && HasAtLeast(form, BusinessType, 2)
              && HasAtLeast(form, ContactName, 2) && HasAtLeast(form, BusinessCity, 2)
              && HasAtLeast(form, BusinessState, 2)
              && HasAtLeast(form, RequestedAmount, 1) && HasAtLeast(form, YearsInBusiness, 1)
              && HasAtLeast(form, AnnualRevenue, 1) && HasAtLeast(form, MonthlyRevenue, 1)
              && HasAtLeast(form, PreferredTerm, 1)
  {
    FailingEmptyIff(form, isEmail);
    RuleMeanings(form, isEmail);
    if forall i :: 0 <= i < |Schema| ==> Satisfies(form, isEmail, Schema[i]) {
      assert Satisfies(form, isEmail, Schema[0]) && Satisfies(form, isEmail, Schema[1])
          && Satisfies(form, isEmail, Schema[2]) && Satisfies(form, isEmail, Schema[3])
          && Satisfies(form, isEmail, Schema[4]) && Satisfies(form, isEmail, Schema[5])
          && Satisfies(form, isEmail, Schema[6]) && Satisfies(form, isEmail, Schema[7])
          && Satisfies(form, isEmail, Schema[8]) && Satisfies(form, isEmail, Schema[9])
          && Satisfies(form, isEmail, Schema[10]) && Satisfies(form, isEmail, Schema[11])
          && Satisfies(form, isEmail, Schema[12]) && Satisfies(form, isEmail, Schema[13])
          && Satisfies(form, isEmail, Schema[14]) && Satisfies(form, isEmail, Schema[15]);
    } else {
      var i :| 0 <= i < |Schema| && !Satisfies(form, isEmail, Schema[i]);
      assert i in {0, 1, 2, 3, 4, 5, 6, 7, 8, 9, 10, 11, 12, 13, 14, 15};
    }
  }

  /** What each rule of the schema asks of its field. */
  lemma RuleMeanings(form: map<Field, string>, isEmail: string -> bool)
    ensures |Schema| == 16
    ensures Satisfies(form, isEmail, Schema[0]) <==>
              ProductType in form && form[ProductType] in ProductCodes
    ensures Satisfies(form, isEmail, Schema[1]) <==> HasAtLeast(form, RequestedAmount, 1)
    ensures Satisfies(form, isEmail, Schema[2]) <==> HasAtLeast(form, PurposeOfLoan, 10)
    ensures Satisfies(form, isEmail, Schema[3]) <==> HasAtLeast(form, BusinessName, 2)
    ensures Satisfies(form, isEmail, Schema[4]) <==> HasAtLeast(form, BusinessType, 2)
    ensures Satisfies(form, isEmail, Schema[5]) <==> HasAtLeast(form, YearsInBusiness, 1)
    ensures Satisfies(form, isEmail, Schema[6]) <==> HasAtLeast(form, AnnualRevenue, 1)
    ensures Satisfies(form, isEmail, Schema[7]) <==> HasAtLeast(form, MonthlyRevenue, 1)
    ensures Satisfies(form, isEmail, Schema[8]) <==> HasAtLeast(form, PreferredTerm, 1)
    ensures Satisfies(form, isEmail, Schema[9]) <==> HasAtLeast(form, ContactName, 2)
    ensures Satisfies(form, isEmail, Schema[10]) <==> ContactEmail in form && isEmail(form[ContactEmail])
    ensures Satisfies(form, isEmail, Schema[11]) <==> HasAtLeast(form, ContactPhone, 10)
    ensures Satisfies(form, isEmail, Schema[12]) <==> HasAtLeast(form, BusinessAddress, 5)
    ensures Satisfies(form, isEmail, Schema[13]) <==> HasAtLeast(form, BusinessCity, 2)
    ensures Satisfies(form, isEmail, Schema[14]) <==> HasAtLeast(form, BusinessState, 2)
    ensures Satisfies(form, isEmail, Schema[15]) <==> HasAtLeast(form, BusinessZip, 5)
  {
  }

  /** A purpose shorter than ten characters is refused with the schema's own message,
      whatever the other fields hold. */
  lemma ShortPurposeRefused(form: map<Field, string>, isEmail: string -> bool)
    requires PurposeOfLoan in form && |form[PurposeOfLoan]| < 10
    ensures MinLength(PurposeOfLoan, 10) in Failing(form, isEmail)
    ensures Message(PurposeOfLoan) == Some("Please provide more details about the purpose")
  {
    assert Schema[2] == MinLength(PurposeOfLoan, 10);
  }

  /** The buttons of the wizard. */
  datatype WizardAction = Next | Previous | Close

  /** The step after one action: `nextStep` moves on only below step 4,
      `prevStep` moves back only above step 1, `handleClose` returns to step 1. */
  function StepAfter(step: int, action: WizardAction): int
  {
    match action
    case Next => if step < 4 then step + 1 else step
    case Previous => if step > 1 then step - 1 else step
    case Close => 1
  }

  function Run(step: int, actions: seq<WizardAction>): int
    decreases |actions|
  {
    if |actions| == 0 then step else Run(StepAfter(step, actions[0]), actions[1..])
  }

  /** From any step in 1..4, every sequence of button presses stays in 1..4. */
  lemma {:induction false} RunStaysInRange(step: int, actions: seq<WizardAction>)
    requires 1 <= step <= 4
    ensures 1 <= Run(step, actions) <= 4
    decreases |actions|
  {
    if |actions| > 0 {
      RunStaysInRange(StepAfter(step, actions[0]), actions[1..]);
    }
  }

  function NextCount(actions: seq<WizardAction>): nat
    decreases |actions|
  {
    if |actions| == 0 then 0 else (if actions[0] == Next then 1 else 0) + NextCount(actions[1..])
  }

  /** Each press of Next advances at most one step, and nothing else advances. */
  lemma {:induction false} RunAdvancesByNexts(step: int, actions: seq<WizardAction>)
    requires step >= 1
    ensures Run(step, actions) <= step + NextCount(actions)
    decreases |actions|
  {
    if |actions| > 0 {
      RunAdvancesByNexts(StepAfter(step, actions[0]), actions[1..]);
    }
  }

  /** So the submit step is reached from the first only after three presses
      of Next at least. */
  lemma SubmitStepNeedsThreeNexts(actions: seq<WizardAction>)
    requires Run(1, actions) == 4
    ensures NextCount(actions) >= 3
  {
    RunAdvancesByNexts(1, actions);
  }

  /** `disabled={currentStep === 1}` on Previous. */
  predicate PreviousDisabled(step: int) { step == 1 }

  /** `currentStep === 4 ? <Submit/> : <Next/>`. */
  predicate SubmitShown(step: int) { step == 4 }

  /** Previous is disabled exactly where pressing it would do nothing, and
      Submit replaces Next exactly where Next would do nothing. */
  lemma ButtonsMatchSteps(step: int)
    requires 1 <= step <= 4
    ensures PreviousDisabled(step) <==> StepAfter(step, Previous) == step
    ensures SubmitShown(step) <==> StepAfter(step, Next) == step
  {
  }

  /** The outcome of the POST to `/api/applications`. */
  datatype SubmitResponse =
    | Created(applicationNumber: string)
    | Refused(message: string)
    | RequestFailed

  class ApplicationWizard {
    var currentStep: int
    var isSubmitting: bool
    var submitSuccess: bool
    var applicationNumber: string

    predicate Valid()
      reads this
    {
      1 <= currentStep <= 4
    }

    constructor()
      ensures Valid()
      ensures currentStep == 1 && !isSubmitting && !submitSuccess && applicationNumber == ""
    {
      currentStep := 1;
      isSubmitting := false;
      submitSuccess := false;
      applicationNumber := "";
    }

    method NextStep()
      requires Valid()
      modifies this
      ensures Valid()
      ensures currentStep == StepAfter(old(currentStep), Next)
      ensures isSubmitting == old(isSubmitting) && submitSuccess == old(submitSuccess)
      ensures applicationNumber == old(applicationNumber)
    {
      if currentStep < 4 {
        currentStep := currentStep + 1;
      }
    }

    method PrevStep()
      requires Valid()
      modifies this
      ensures Valid()
      ensures currentStep == StepAfter(old(currentStep), Previous)
      ensures isSubmitting == old(isSubmitting) && submitSuccess == old(submitSuccess)
      ensures applicationNumber == old(applicationNumber)
    {
      if currentStep > 1 {
        currentStep := currentStep - 1;
      }
    }

    /** `handleClose`: back to the first step with no success shown. */
    method CloseForm()
      requires Valid()
      modifies this
      ensures Valid()
      ensures currentStep == StepAfter(old(currentStep), Close)
      ensures !submitSuccess && applicationNumber == ""
      ensures isSubmitting == old(isSubmitting)
    {
      currentStep := 1;
      submitSuccess := false;
      applicationNumber := "";
    }

    /** `onSubmit` once the schema accepts the form: the created number is
        kept and success shown; a refusal reports the server's message or a
        fallback; submitting ends in every case. */
    method Submit(response: SubmitResponse) returns (toast: Result<string>)
      requires Valid()
      modifies this
      ensures Valid()
      ensures currentStep == old(currentStep) && !isSubmitting
      ensures response.Created? ==>
                toast == Success("Application submitted successfully!")
                && submitSuccess && applicationNumber == response.applicationNumber
      ensures !response.Created? ==>
                submitSuccess == old(submitSuccess) && applicationNumber == old(applicationNumber)
      ensures response.Refused? ==>
                toast == Failure(if response.message != "" then response.message else "Failed to submit application")
      ensures response.RequestFailed? ==>
                toast == Failure("An error occurred while submitting your application")
    {
      isSubmitting := true;
      match response {
        case Created(number) =>
          applicationNumber := number;
          submitSuccess := true;
          toast := Success("Application submitted successfully!");
        case Refused(message) =>
          toast := Failure(if message != "" then message else "Failed to submit application");
        case RequestFailed =>
          toast := Failure("An error occurred while submitting your application");
      }
      isSubmitting := false;
    }
  }
}
