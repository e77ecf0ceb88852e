/** The add-company form of src/components/AddCompanyForm.jsx: its field
    state, the change handler, and the submit handler's ordered guards,
    website normalisation, record assembly and handling of the insert's
    answer. The session (user, admin flag), the generated id and the
    backend's answer to the insert are parameters. */
module AddCompany {
  import opened Wrappers
  import opened Text
  import opened Records

  /** A form field's value: inputs hold strings, checkboxes booleans, and the
      founding year starts as a number until the input is edited. */
  datatype Value = TextValue(text: string) | NumberValue(number: int) | BoolValue(b: bool)

  /** The `formData` state. */
  datatype FormData = FormData(
    name: string,
    headline: string,
    website: string,
    founded: Value,
    web3Native: bool,
    inferenceApis: bool,
    customModelHosting: bool,
    fineTuningPipeline: bool,
    rentGpuCompute: bool)

  /** The form's inputs, by their `name` attribute. */
  datatype Field = NameField | HeadlineField | WebsiteField | FoundedField | FlagField(flag: Flag)

  /** `formData[field]`. */
  function Get(form: FormData, field: Field): Value {
    match field
    case NameField => TextValue(form.name)
    case HeadlineField => TextValue(form.headline)
    case WebsiteField => TextValue(form.website)
    case FoundedField => form.founded
    case FlagField(f) =>
      BoolValue(match f
        case Web3Native => form.web3Native
        case InferenceApis => form.inferenceApis
        case CustomModelHosting => form.customModelHosting
        case FineTuningPipeline => form.fineTuningPipeline
        case RentGpuCompute => form.rentGpuCompute)
  }

  /** The form a fresh page starts with; `currentYear` stands for
      `new Date().getFullYear()`. */
  function InitialForm(currentYear: int): (r: FormData)
    ensures Get(r, NameField) == TextValue("") && Get(r, HeadlineField) == TextValue("") && Get(r, WebsiteField) == TextValue("")
    ensures Get(r, FoundedField) == NumberValue(currentYear)
    ensures forall f :: Get(r, FlagField(f)) == BoolValue(false)
  {
    FormData("", "", "", NumberValue(currentYear), false, false, false, false, false)
  }

  /** The part of an input's change event the handler reads: the input's
      `name`, its `value` and its `checked` state. Exactly the capability
      inputs are checkboxes. */
  datatype ChangeEvent = ChangeEvent(field: Field, value: string, checked: bool)

  /** `type === 'checkbox' ? checked : value`. */
  function EventValue(e: ChangeEvent): Value {
    if e.field.FlagField? then BoolValue(e.checked) else TextValue(e.value)
  }

  /** `handleChange`: the named field takes the event's value and every other
      field keeps its value. */
  function HandleChange(form: FormData, e: ChangeEvent): (r: FormData)
    ensures Get(r, e.field) == EventValue(e)
    ensures forall g :: g != e.field ==> Get(r, g) == Get(form, g)
  {
    match e.field
    case NameField => form.(name := e.value)
    case HeadlineField => form.(headline := e.value)
    case WebsiteField => form.(website := e.value)
    case FoundedField => form.(founded := TextValue(e.value))
    case FlagField(f) =>
      match f
      case Web3Native => form.(web3Native := e.checked)
      case InferenceApis => form.(inferenceApis := e.checked)
      case CustomModelHosting => form.(customModelHosting := e.checked)
      case FineTuningPipeline => form.(fineTuningPipeline := e.checked)
      case RentGpuCompute => form.(rentGpuCompute := e.checked)
  }

  /** Two forms that agree on every field are the same form. */
  lemma FormExtensional(a: FormData, b: FormData)
    requires forall g :: Get(a, g) == Get(b, g)
    ensures a == b
  {
    assert Get(a, NameField) == Get(b, NameField);
    assert Get(a, HeadlineField) == Get(b, HeadlineField);
    assert Get(a, WebsiteField) == Get(b, WebsiteField);
    assert Get(a, FoundedField) == Get(b, FoundedField);
    assert Get(a, FlagField(Web3Native)) == Get(b, FlagField(Web3Native));
    assert Get(a, FlagField(InferenceApis)) == Get(b, FlagField(InferenceApis));
    assert Get(a, FlagField(CustomModelHosting)) == Get(b, FlagField(CustomModelHosting));
    assert Get(a, FlagField(FineTuningPipeline)) == Get(b, FlagField(FineTuningPipeline));
    assert Get(a, FlagField(RentGpuCompute)) == Get(b, FlagField(RentGpuCompute));
  }

  /** Re-sending the value a field already holds changes nothing. */
  lemma HandleChangeSameValue(form: FormData, e: ChangeEvent)
    requires Get(form, e.field) == EventValue(e)
    ensures HandleChange(form, e) == form
  {
    FormExtensional(HandleChange(form, e), form);
  }

  const MsgNotLoggedIn := "You must be logged in to add a company"
  const MsgNotAdmin := "Only administrators can add companies"
  const MsgNameRequired := "Company name is required"
  const MsgWebsiteRequired := "Website URL is required"
  const MsgCreateFailed := "Failed to create company"
  const MsgAddFailed := "Failed to add company"

  /** `/^https?:\/\//.test(w)`: `w` starts with `http://` or `https://`,
      case-sensitively and without trimming. */
  predicate HasScheme(w: string) {
    "http://" <= w || "https://" <= w
  }

  /** The website rule: `https://` is put in front of a website that does not
      already start with a scheme. */
  function NormalizeWebsite(w: string): (r: string)
    ensures HasScheme(r)
    ensures HasScheme(w) ==> r == w
    ensures !HasScheme(w) ==> r == "https://" + w
  {
    if HasScheme(w) then w else "https://" + w
  }

  /** Normalising twice is normalising once. */
  lemma NormalizeIdempotent(w: string)
    ensures NormalizeWebsite(NormalizeWebsite(w)) == NormalizeWebsite(w)
  {
  }

  /** The scheme test looks at the untrimmed website, so leading whitespace
      survives behind the added `https://`. */
  lemma NormalizeKeepsLeadingSpace(w: string)
    requires |w| > 0 && IsSpace(w[0])
    ensures NormalizeWebsite(w) == "https://" + w
  {
    assert !("http://" <= w) && !("https://" <= w) by {
      assert w[0] != 'h';
    }
  }

  /** Changing the website leaves every other field as it was. */
  lemma SetWebsiteKeepsOthers(form: FormData, w: string)
    ensures forall g :: g != WebsiteField ==> Get(form.(website := w), g) == Get(form, g)
  {
    forall g | g != WebsiteField
      ensures Get(form.(website := w), g) == Get(form, g)
    {
      match g
      case FlagField(f) =>
      case _ =>
    }
  }

  /** The signed-in user; only its id is read. */
  datatype User = User(id: string)

  /** The record handed to the insert: the form's fields (website
      normalised), the generated `id` and `created_by`. */
  datatype NewCompany = NewCompany(form: FormData, id: string, createdBy: string)

  /** The guards of `handleSubmit` in their order (signed in, admin, name,
      website; the first that fails gives the error) and the record they let
      through. */
  function Prepare(user: Option<User>, isAdmin: bool, form: FormData, newId: string): (r: Result<NewCompany, string>)
    ensures user.None? ==> r == Err(MsgNotLoggedIn)
    ensures user.Some? && !isAdmin ==> r == Err(MsgNotAdmin)
    ensures user.Some? && isAdmin && Trim(form.name) == "" ==> r == Err(MsgNameRequired)
    ensures user.Some? && isAdmin && Trim(form.name) != "" && Trim(form.website) == "" ==> r == Err(MsgWebsiteRequired)
    ensures r.Ok? <==> user.Some? && isAdmin && Trim(form.name) != "" && Trim(form.website) != ""
    ensures r.Ok? ==> r.value.id == newId && r.value.createdBy == user.value.id
    ensures r.Ok? ==> r.value.form.website == NormalizeWebsite(form.website)
    ensures r.Ok? ==> HasScheme(r.value.form.website) && Trim(r.value.form.website) != ""
    ensures r.Ok? ==> forall g :: g != WebsiteField ==> Get(r.value.form, g) == Get(form, g)
    ensures r.Ok? && HasScheme(form.website) ==> r.value.form == form
  {
    if user.None? then Err(MsgNotLoggedIn)
    else if !isAdmin then Err(MsgNotAdmin)
    else if Trim(form.name) == "" then Err(MsgNameRequired)
    else if Trim(form.website) == "" then Err(MsgWebsiteRequired)
    else
      var website := NormalizeWebsite(form.website);
      assert website[0] == 'h';
      TrimKeepsNonSpace(website, 'h');
      SetWebsiteKeepsOthers(form, website);
      Ok(NewCompany(form.(website := website), newId, user.value.id))
  }

  /** What the backend answers to the insert-and-select: an error carrying a
      message (possibly empty), or the rows it returned. */
  datatype InsertReply = InsertFailed(message: string) | InsertReturned(rows: seq<Company>)

  /** The form's state once `handleSubmit` has finished. `form` is the form
      data afterwards: the handler normalises the website in place, so the
      normalised value stays in the state even when the insert fails. */
  datatype SubmitOutcome = SubmitOutcome(
    form: FormData,
    error: Option<string>,
    inserted: Option<NewCompany>,
    added: Option<Company>,
    submitting: bool)

  /** `handleSubmit`: nothing is inserted unless every guard passes;
      `onCompanyAdded` gets the first returned row, and only when the insert
      returned one; every other path ends with a non-empty error message;
      the form is no longer submitting afterwards. */
  function HandleSubmit(user: Option<User>, isAdmin: bool, form: FormData, newId: string, reply: InsertReply): (r: SubmitOutcome)
    ensures !r.submitting
    ensures r.added.Some? <==> r.error.None?
    ensures r.error.Some? ==> r.error.value != ""
    ensures r.inserted.Some? <==> Prepare(user, isAdmin, form, newId).Ok?
    ensures r.inserted.None? ==> r.form == form && r.error == Some(Prepare(user, isAdmin, form, newId).error)
    ensures r.inserted.Some? ==> r.inserted.value == Prepare(user, isAdmin, form, newId).value && r.form == r.inserted.value.form
    ensures r.added.Some? <==> r.inserted.Some? && reply.InsertReturned? && |reply.rows| > 0
    ensures r.added.Some? ==> r.added.value == reply.rows[0]
    ensures r.inserted.Some? && reply == InsertReturned([]) ==> r.error == Some(MsgCreateFailed)
    ensures r.inserted.Some? && reply.InsertFailed? ==> r.error == Some(if reply.message == "" then MsgAddFailed else reply.message)
  {
    match Prepare(user, isAdmin, form, newId)
    case Err(msg) => SubmitOutcome(form, Some(msg), None, None, false)
    case Ok(record) =>
      match reply
      case InsertFailed(m) =>
        SubmitOutcome(record.form, Some(if m == "" then MsgAddFailed else m), Some(record), None, false)
      case InsertReturned(rows) =>
        if |rows| == 0 then SubmitOutcome(record.form, Some(MsgCreateFailed), Some(record), None, false)
        else SubmitOutcome(record.form, None, Some(record), Some(rows[0]), false)
  }

  /** A session that is not an admin's never inserts and never adds a
      company, whatever the form holds. */
  lemma AdminGate(user: Option<User>, form: FormData, newId: string, reply: InsertReply)
    ensures HandleSubmit(user, false, form, newId, reply).inserted.None?
    ensures HandleSubmit(user, false, form, newId, reply).added.None?
  {
  }

  /** A blank name is refused before the website is looked at and before any
      insert. */
  lemma BlankNameRefused(u: User, form: FormData, newId: string, reply: InsertReply)
    requires Trim(form.name) == ""
    ensures HandleSubmit(Some(u), true, form, newId, reply).error == Some(MsgNameRequired)
    ensures HandleSubmit(Some(u), true, form, newId, reply).inserted.None?
  {
  }

  /** A website typed without a scheme, such as `example.com`,
      `hyperbolic.xyz` or ` example.com`, is submitted with `https://` in
      front of it. */
  lemma BareWebsiteGetsHttps(u: User, form: FormData, newId: string)
    requires !HasScheme(form.website) && Trim(form.website) != ""
    requires Trim(form.name) != ""
    ensures Prepare(Some(u), true, form, newId).Ok?
    ensures Prepare(Some(u), true, form, newId).value.form.website == "https://" + form.website
  {
  }

  lemma ExampleWebsite()
    ensures NormalizeWebsite("example.com") == "https://example.com"
  {
    assert "example.com"[0] == 'e';
  }
}
