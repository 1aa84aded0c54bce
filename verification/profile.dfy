/** The profile page: the edit form derived from the user record, the
    update it sends, the view/edit/save/cancel cycle and the read-only view
    with its "Not set" fallbacks. The timer that later hides the success
    message is left out. */
module Profile {
  import opened Wrappers
  import opened Types

  /** The four editable fields; the e-mail is not among them. */
  datatype ProfileForm = ProfileForm(firstName: string, lastName: string, phone: string, address: string)

  const BlankForm := ProfileForm("", "", "", "")

  /** The address as a string, when the record holds one. */
  function AddressText(a: Address): (r: string)
    ensures a.TextAddress? ==> r == a.text
    ensures !a.TextAddress? ==> r == ""
  {
    if a.TextAddress? then a.text else ""
  }

  /** The form the page derives from a user record: each name and the
      phone, or empty; the address only when it is a string. */
  function FormFromUser(u: User): (r: ProfileForm)
    ensures r.firstName == OrElse(u.firstName, "")
    ensures r.lastName == OrElse(u.lastName, "")
    ensures r.phone == OrElse(u.phone, "")
    ensures r.address == AddressText(u.address)
  {
    ProfileForm(OrElse(u.firstName, ""), OrElse(u.lastName, ""), OrElse(u.phone, ""), AddressText(u.address))
  }

  /** The body `updateProfile` is called with: exactly the four form
      fields, so the e-mail can never be changed from this page. */
  function UpdatePayload(form: ProfileForm): (r: map<string, string>)
    ensures r.Keys == {"firstName", "lastName", "phone", "address"}
    ensures "email" !in r
    ensures r["firstName"] == form.firstName && r["lastName"] == form.lastName
    ensures r["phone"] == form.phone && r["address"] == form.address
  {
    map["firstName" := form.firstName, "lastName" := form.lastName, "phone" := form.phone, "address" := form.address]
  }

  /** The page's state. */
  datatype ProfileState = ProfileState(
    user: Option<User>,
    isLoading: bool,
    editing: bool,
    error: string,
    success: string,
    form: ProfileForm)

  const Opened := ProfileState(None, true, false, "", "", BlankForm)

  /** Replacing the user re-derives the form, as the page's effect on the
      user does. */
  function WithUser(s: ProfileState, u: User): (r: ProfileState)
    ensures r.user == Some(u) && r.form == FormFromUser(u)
    ensures r.isLoading == s.isLoading && r.editing == s.editing && r.error == s.error && r.success == s.success
  {
    s.(user := Some(u), form := FormFromUser(u))
  }

  datatype UserReply = Replied(success: bool, data: Option<User>) | Threw(thrown: Thrown)

  const LoadFailed := "Failed to load profile. Please try again."
  const SaveFailed := "Failed to update profile. Please try again."
  const Saved := "Profile updated successfully!"

  /** The catch blocks' message: an `Error`'s own message, even an empty
      one, or the given fallback. */
  function CaughtMessage(e: Thrown, fallback: string): (r: string)
    ensures e.ErrorValue? ==> r == e.message
    ensures e.OtherValue? ==> r == fallback
  {
    match e
    case ErrorValue(m) => m
    case OtherValue => fallback
  }

  /** `fetchProfile`: clears the error; a successful reply stores the user
      (and so the form); a rejection records its message; loading ends. */
  function Fetch(s: ProfileState, reply: UserReply): (r: ProfileState)
    ensures !r.isLoading
    ensures r.editing == s.editing && r.success == s.success
    ensures reply.Replied? && reply.success && reply.data.Some? ==>
      r.user == reply.data && r.form == FormFromUser(reply.data.value) && r.error == ""
    ensures reply.Replied? && !(reply.success && reply.data.Some?) ==> r == s.(isLoading := false, error := "")
    ensures reply.Threw? ==> r == s.(isLoading := false, error := CaughtMessage(reply.thrown, LoadFailed))
  {
    var started := s.(isLoading := true, error := "");
    match reply
    case Replied(success, data) =>
      if success && data.Some? then WithUser(started, data.value).(isLoading := false)
      else started.(isLoading := false)
    case Threw(e) => started.(error := CaughtMessage(e, LoadFailed), isLoading := false)
  }

  /** "Edit Profile". */
  function StartEdit(s: ProfileState): (r: ProfileState)
    ensures r == s.(editing := true)
  {
    s.(editing := true)
  }

  datatype FormField = FirstNameField | LastNameField | PhoneField | AddressField

  /** Typing into one of the four inputs changes that field only. */
  function EditField(s: ProfileState, field: FormField, value: string): (r: ProfileState)
    ensures r.user == s.user && r.editing == s.editing && r.error == s.error && r.success == s.success
    ensures r.isLoading == s.isLoading
    ensures field == FirstNameField ==> r.form == s.form.(firstName := value)
    ensures field == LastNameField ==> r.form == s.form.(lastName := value)
    ensures field == PhoneField ==> r.form == s.form.(phone := value)
    ensures field == AddressField ==> r.form == s.form.(address := value)
  {
    match field
    case FirstNameField => s.(form := s.form.(firstName := value))
    case LastNameField => s.(form := s.form.(lastName := value))
    case PhoneField => s.(form := s.form.(phone := value))
    case AddressField => s.(form := s.form.(address := value))
  }

  /** `handleSubmit` settling, for a save that sent `UpdatePayload(s.form)`:
      both messages are cleared first; a successful reply replaces the user,
      re-derives the form, leaves edit mode and announces the save; a reply
      without success changes nothing else; a rejection stays in edit mode
      with the error's message or the fallback. */
  function Save(s: ProfileState, reply: UserReply): (r: ProfileState)
    ensures reply.Replied? && reply.success && reply.data.Some? ==>
      && r.user == reply.data && r.form == FormFromUser(reply.data.value)
      && !r.editing && r.success == Saved && r.error == ""
    ensures reply.Replied? && !(reply.success && reply.data.Some?) ==> r == s.(error := "", success := "")
    ensures reply.Threw? ==>
      r == s.(error := CaughtMessage(reply.thrown, SaveFailed), success := "")
  {
    var cleared := s.(error := "", success := "");
    match reply
    case Replied(success, data) =>
      if success && data.Some? then WithUser(cleared, data.value).(editing := false, success := Saved)
      else cleared
    case Threw(e) => cleared.(error := CaughtMessage(e, SaveFailed))
  }

  /** "Cancel": leaves edit mode, clears the error and puts back the form
      derived from the current user. The button exists only once a user
      is loaded. */
  function Cancel(s: ProfileState): (r: ProfileState)
    requires s.user.Some?
    ensures !r.editing && r.error == ""
    ensures r.form == FormFromUser(s.user.value)
    ensures r.user == s.user && r.success == s.success && r.isLoading == s.isLoading
  {
    s.(editing := false, error := "", form := FormFromUser(s.user.value))
  }

  /** Whatever was typed, cancelling gives back the form the page derived
      when the user was loaded. */
  lemma CancelDiscardsEdits(s: ProfileState, u: User, field: FormField, value: string)
    ensures var loaded := StartEdit(WithUser(s, u));
      Cancel(EditField(loaded, field, value)).form == loaded.form
  {
  }

  /** A save the server accepts leaves edit mode on the form derived from
      the returned record, so cancelling right after changes nothing. */
  lemma SaveThenCancel(s: ProfileState, u: User)
    ensures var saved := Save(s, Replied(true, Some(u)));
      Cancel(saved) == saved.(error := "")
  {
  }

  /** "Not set" stands in for an empty value. */
  function OrNotSet(value: string): (r: string)
    ensures value == "" ==> r == "Not set"
    ensures value != "" ==> r == value
  {
    if value == "" then "Not set" else value
  }

  datatype Details = Details(firstName: string, lastName: string, email: string, phone: string, address: string, role: string)

  /** The read-only view: `firstName || 'Not set'`, likewise the last name
      and phone, and the address only when it is a non-empty string. */
  function ViewOf(u: User): (r: Details)
    ensures r.firstName == (if Truthy(u.firstName) then u.firstName.value else "Not set")
    ensures r.lastName == (if Truthy(u.lastName) then u.lastName.value else "Not set")
    ensures r.phone == (if Truthy(u.phone) then u.phone.value else "Not set")
    ensures r.address == (if u.address.TextAddress? && u.address.text != "" then u.address.text else "Not set")
    ensures r.email == u.email && r.role == u.role
  {
    Details(OrElse(u.firstName, "Not set"), OrElse(u.lastName, "Not set"), u.email,
            OrElse(u.phone, "Not set"),
            if u.address.TextAddress? && u.address.text != "" then u.address.text else "Not set", u.role)
  }

  /** The view shows exactly the form the page would edit, with "Not set"
      for each empty field. */
  lemma ViewAgreesWithForm(u: User)
    ensures var v, f := ViewOf(u), FormFromUser(u);
      && v.firstName == OrNotSet(f.firstName) && v.lastName == OrNotSet(f.lastName)
      && v.phone == OrNotSet(f.phone) && v.address == OrNotSet(f.address)
  {
  }

  datatype Screen =
    | Spinner
    | Failed(message: string)
    | NotFound
    | Editing(form: ProfileForm, email: string, error: string, success: string)
    | Viewing(details: Details, error: string, success: string)

  /** The spinner while loading; the error alone when no user is loaded;
      "User not found"; otherwise the form or the details, under the error
      and success messages. */
  function Render(s: ProfileState): (r: Screen)
    ensures r.Spinner? <==> s.isLoading
    ensures r.Failed? <==> !s.isLoading && s.error != "" && s.user.None?
    ensures r.NotFound? <==> !s.isLoading && s.error == "" && s.user.None?
    ensures r.Editing? <==> !s.isLoading && s.user.Some? && s.editing
    ensures r.Editing? ==> r.form == s.form && r.email == s.user.value.email && r.error == s.error
    ensures r.Viewing? ==> r.details == ViewOf(s.user.value) && r.error == s.error && r.success == s.success
  {
    if s.isLoading then Spinner
    else if s.error != "" && s.user.None? then Failed(s.error)
    else if s.user.None? then NotFound
    else if s.editing then Editing(s.form, s.user.value.email, s.error, s.success)
    else Viewing(ViewOf(s.user.value), s.error, s.success)
  }
}
