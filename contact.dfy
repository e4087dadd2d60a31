/** The state of frontend/src/components/ContactPage.jsx: a record of five
    text fields and a "submitting" flag. Every input writes one field; the
    submit handler raises the flag and schedules a reset one second later.
    The toast and the delay itself are not modelled: the scheduled reset is
    a counter of timers that have not fired yet, and each firing is a call. */
module Contact {
  import opened Wrappers

  /** The form's fields; the select writes `Category`, the inputs the rest. */
  datatype Field = Name | Email | Subject | Category | Message

  datatype ContactForm = ContactForm(name: string, email: string, subject: string, category: string,
                                     message: string)

  /** The initial (and the reset) form: every field empty. */
  const EmptyForm: ContactForm := ContactForm("", "", "", "", "")

  /** The `name` attribute of the element that writes a field. */
  function InputName(f: Field): string
  {
    match f
    case Name => "name"
    case Email => "email"
    case Subject => "subject"
    case Category => "category"
    case Message => "message"
  }

  /** The field an element's `name` attribute selects, if any. */
  function FieldOfInput(n: string): (r: Option<Field>)
    ensures r.Some? ==> InputName(r.value) == n
  {
    if n == "name" then Some(Name)
    else if n == "email" then Some(Email)
    else if n == "subject" then Some(Subject)
    else if n == "category" then Some(Category)
    else if n == "message" then Some(Message)
    else None
  }

  /** Every field is selected by its own element name. */
  lemma FieldOfInputName(f: Field)
    ensures FieldOfInput(InputName(f)) == Some(f)
  {
  }

  /** Distinct fields have distinct element names. */
  lemma InputNameInjective(f: Field, g: Field)
    ensures InputName(f) == InputName(g) <==> f == g
  {
    FieldOfInputName(f);
    FieldOfInputName(g);
  }

  /** `formData[field]`. */
  function Get(form: ContactForm, f: Field): string
  {
    match f
    case Name => form.name
    case Email => form.email
    case Subject => form.subject
    case Category => form.category
    case Message => form.message
  }

  /** Two forms are equal when every field is. */
  lemma FormsEqual(a: ContactForm, b: ContactForm)
    requires forall f :: Get(a, f) == Get(b, f)
    ensures a == b
  {
    assert Get(a, Name) == Get(b, Name) && Get(a, Email) == Get(b, Email);
    assert Get(a, Subject) == Get(b, Subject) && Get(a, Category) == Get(b, Category);
    assert Get(a, Message) == Get(b, Message);
  }

  /** `{...formData, [field]: value}`: the one field changes, the others stay. */
  function WithField(form: ContactForm, f: Field, value: string): (r: ContactForm)
    ensures Get(r, f) == value
    ensures forall g :: g != f ==> Get(r, g) == Get(form, g)
  {
    match f
    case Name => form.(name := value)
    case Email => form.(email := value)
    case Subject => form.(subject := value)
    case Category => form.(category := value)
    case Message => form.(message := value)
  }

  /** The second write to a field wins. */
  lemma WithFieldTwice(form: ContactForm, f: Field, v: string, w: string)
    ensures WithField(WithField(form, f, v), f, w) == WithField(form, f, w)
  {
    var a, b := WithField(WithField(form, f, v), f, w), WithField(form, f, w);
    assert forall g :: Get(a, g) == Get(b, g);
    FormsEqual(a, b);
  }

  /** Writes to different fields do not interfere. */
  lemma WithFieldCommutes(form: ContactForm, f: Field, g: Field, v: string, w: string)
    requires f != g
    ensures WithField(WithField(form, f, v), g, w) == WithField(WithField(form, g, w), f, v)
  {
    var a, b := WithField(WithField(form, f, v), g, w), WithField(WithField(form, g, w), f, v);
    assert forall h :: Get(a, h) == Get(b, h);
    FormsEqual(a, b);
  }

  /** Writing a field its current value changes nothing. */
  lemma WithFieldSameValue(form: ContactForm, f: Field)
    ensures WithField(form, f, Get(form, f)) == form
  {
    var a := WithField(form, f, Get(form, f));
    assert forall g :: Get(a, g) == Get(form, g);
    FormsEqual(a, form);
  }

  /** The initial form is empty in every field. */
  lemma EmptyFormIsEmpty()
    ensures forall f :: Get(EmptyForm, f) == ""
  {
  }

  /** The submit button's text. */
  function ButtonLabel(submitting: bool): (r: string)
    ensures r == "Sending..." <==> submitting
    ensures r == "Send Message" <==> !submitting
  {
    if submitting then "Sending..." else "Send Message"
  }

  class ContactPage {
    var formData: ContactForm
    var isSubmitting: bool
    /** Reset timers scheduled by a submit and not fired yet. */
    var pendingResets: nat

    /** The flag is only up while a reset is still to come. */
    ghost predicate Valid()
      reads this
    {
      isSubmitting ==> pendingResets > 0
    }

    constructor ()
      ensures Valid()
      ensures formData == EmptyForm && !isSubmitting && pendingResets == 0
    {
      formData := EmptyForm;
      isSubmitting := false;
      pendingResets := 0;
    }

    /** handleInputChange: the element's `name` picks the field it writes. */
    method HandleInputChange(f: Field, value: string)
      requires Valid()
      modifies this
      ensures Valid()
      ensures formData == WithField(old(formData), f, value)
      ensures isSubmitting == old(isSubmitting) && pendingResets == old(pendingResets)
    {
      formData := WithField(formData, f, value);
    }

    /** handleCategoryChange: the select writes the category only. */
    method HandleCategoryChange(value: string)
      requires Valid()
      modifies this
      ensures Valid()
      ensures formData == WithField(old(formData), Category, value)
      ensures isSubmitting == old(isSubmitting) && pendingResets == old(pendingResets)
    {
      formData := formData.(category := value);
    }

    /** handleSubmit: raises the flag and schedules a reset; the form is kept
        until the reset fires. */
    method HandleSubmit()
      requires Valid()
      modifies this
      ensures Valid()
      ensures formData == old(formData) && isSubmitting
      ensures pendingResets == old(pendingResets) + 1
    {
      isSubmitting := true;
      pendingResets := pendingResets + 1;
    }

    /** A scheduled reset fires: every field is emptied and the flag drops. */
    method SubmitTimerFires()
      requires Valid() && pendingResets > 0
      modifies this
      ensures Valid()
      ensures formData == EmptyForm && !isSubmitting
      ensures pendingResets == old(pendingResets) - 1
    {
      formData := EmptyForm;
      isSubmitting := false;
      pendingResets := pendingResets - 1;
    }

    /** The submit button is disabled exactly while submitting. */
    function SubmitDisabled(): bool
      reads this
    {
      isSubmitting
    }

    function SubmitLabel(): (r: string)
      reads this
      ensures r == "Sending..." <==> SubmitDisabled()
    {
      ButtonLabel(isSubmitting)
    }
  }
}
