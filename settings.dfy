/** The settings page: the initial profile and preferences, the single-field
    edits of the profile, password and notification forms, and the password
    change handler with its two guards. */
module Settings {
  import opened Wrappers

  /** The session user's optional values; an empty string counts as absent,
      as `||` treats it. */
  datatype SessionUser = SessionUser(
    id: Option<string>,
    name: Option<string>,
    email: Option<string>,
    role: Option<string>,
    companyName: Option<string>)

  datatype UserProfile = UserProfile(
    id: string,
    name: string,
    email: string,
    role: string,
    companyName: string,
    industry: string,
    phoneNumber: string)

  datatype PasswordForm = PasswordForm(currentPassword: string, newPassword: string, confirmPassword: string)

  datatype NotificationPreferences = NotificationPreferences(email: bool, sms: bool, push: bool, frequency: string)

  /** `value || fallback` on an optional string. */
  function OrElse(value: Option<string>, fallback: string): (r: string)
    ensures value.Some? && value.value != "" ==> r == value.value
    ensures value.None? || value.value == "" ==> r == fallback
  {
    if value.Some? && value.value != "" then value.value else fallback
  }

  /** The profile the page starts from: the session's values, "user" for a
      missing role and "" for every other missing value; industry and phone
      always start empty. */
  function InitialProfile(session: Option<SessionUser>): UserProfile
  {
    match session
    case None => UserProfile("", "", "", "user", "", "", "")
    case Some(u) =>
      UserProfile(OrElse(u.id, ""), OrElse(u.name, ""), OrElse(u.email, ""), OrElse(u.role, "user"),
                  OrElse(u.companyName, ""), "", "")
  }

  /** Without a session every text is empty and the role is "user". With one,
      each session value is taken as it is, a missing or empty role becomes
      "user" and every other missing value "". */
  lemma InitialProfileDefaults(session: Option<SessionUser>)
    ensures session.None? ==> InitialProfile(session) == UserProfile("", "", "", "user", "", "", "")
    ensures InitialProfile(session).role != ""
    ensures InitialProfile(session).industry == "" && InitialProfile(session).phoneNumber == ""
    ensures session.Some? && session.value.role.Some? && session.value.role.value != "" ==>
              InitialProfile(session).role == session.value.role.value
    ensures session.Some? && (session.value.role.None? || session.value.role.value == "") ==>
              InitialProfile(session).role == "user"
    ensures session.Some? && session.value.id.Some? ==> InitialProfile(session).id == session.value.id.value
    ensures session.Some? && session.value.id.None? ==> InitialProfile(session).id == ""
    ensures session.Some? && session.value.name.Some? ==>
              InitialProfile(session).name == session.value.name.value
    ensures session.Some? && session.value.name.None? ==> InitialProfile(session).name == ""
    ensures session.Some? && session.value.email.Some? ==>
              InitialProfile(session).email == session.value.email.value
    ensures session.Some? && session.value.email.None? ==> InitialProfile(session).email == ""
    ensures session.Some? && session.value.companyName.Some? ==>
              InitialProfile(session).companyName == session.value.companyName.value
    ensures session.Some? && session.value.companyName.None? ==> InitialProfile(session).companyName == ""
  {
  }

  const InitialPasswordForm := PasswordForm("", "", "")

  /** Every channel on, notifications sent immediately. */
  const InitialNotifications := NotificationPreferences(true, true, true, "immediate")

  /** The editable fields of the profile (`id` and `role` have no control). */
  datatype ProfileField = Name | Email | PhoneNumber | Industry | CompanyName

  function ProfileValue(p: UserProfile, f: ProfileField): string
  {
    match f
    case Name => p.name
    case Email => p.email
    case PhoneNumber => p.phoneNumber
    case Industry => p.industry
    case CompanyName => p.companyName
  }

  /** `setProfile({ ...profile, <field>: value })`. */
  function EditProfile(p: UserProfile, f: ProfileField, value: string): (q: UserProfile)
  {
    match f
    case Name => p.(name := value)
    case Email => p.(email := value)
    case PhoneNumber => p.(phoneNumber := value)
    case Industry => p.(industry := value)
    case CompanyName => p.(companyName := value)
  }

  /** A profile edit sets its own field and keeps every other one, the id
      and the role included. */
  lemma EditProfileChangesOneField(p: UserProfile, f: ProfileField, value: string)
    ensures ProfileValue(EditProfile(p, f, value), f) == value
    ensures forall g :: g != f ==> ProfileValue(EditProfile(p, f, value), g) == ProfileValue(p, g)
    ensures EditProfile(p, f, value).id == p.id && EditProfile(p, f, value).role == p.role
  {
  }

  /** Editing a field back to its value restores the profile. */
  lemma EditProfileRestores(p: UserProfile, f: ProfileField, value: string)
    ensures EditProfile(EditProfile(p, f, value), f, ProfileValue(p, f)) == p
  {
  }

  datatype PasswordField = Current | New | Confirm

  function PasswordValue(form: PasswordForm, f: PasswordField): string
  {
    match f
    case Current => form.currentPassword
    case New => form.newPassword
    case Confirm => form.confirmPassword
  }

  /** `setPasswordForm({ ...passwordForm, <field>: value })`. */
  function EditPassword(form: PasswordForm, f: PasswordField, value: string): PasswordForm
  {
    match f
    case Current => form.(currentPassword := value)
    case New => form.(newPassword := value)
    case Confirm => form.(confirmPassword := value)
  }

  lemma EditPasswordChangesOneField(form: PasswordForm, f: PasswordField, value: string)
    ensures PasswordValue(EditPassword(form, f, value), f) == value
    ensures forall g :: g != f ==> PasswordValue(EditPassword(form, f, value), g) == PasswordValue(form, g)
  {
  }

  /** The notification controls: three switches and the frequency drop-down. */
  datatype NotificationEdit =
    | SetEmail(on: bool)
    | SetSms(on: bool)
    | SetPush(on: bool)
    | SetFrequency(frequency: string)

  /** `setNotifications({ ...notifications, <field>: value })`. */
  function EditNotifications(n: NotificationPreferences, e: NotificationEdit): NotificationPreferences
  {
    match e
    case SetEmail(on) => n.(email := on)
    case SetSms(on) => n.(sms := on)
    case SetPush(on) => n.(push := on)
    case SetFrequency(frequency) => n.(frequency := frequency)
  }

  /** Each control changes exactly its own preference. */
  lemma EditNotificationsChangesOneField(n: NotificationPreferences, e: NotificationEdit)
    ensures var m := EditNotifications(n, e);
            (m.email == if e.SetEmail? then e.on else n.email)
            && (m.sms == if e.SetSms? then e.on else n.sms)
            && (m.push == if e.SetPush? then e.on else n.push)
            && (m.frequency == if e.SetFrequency? then e.frequency else n.frequency)
  {
  }

  /** Switching a channel twice to the same value is switching it once. */
  lemma EditNotificationsIdempotent(n: NotificationPreferences, e: NotificationEdit)
    ensures EditNotifications(EditNotifications(n, e), e) == EditNotifications(n, e)
  {
  }

  const MinPasswordLength := 8

  /** The guards of `handlePasswordChange`, in their order: the message of
      the first that fails, or `None` when both pass. */
  function PasswordRejection(form: PasswordForm): Option<string>
  {
    if form.newPassword != form.confirmPassword then Some("Passwords do not match")
    else if |form.newPassword| < MinPasswordLength then Some("Password must be at least 8 characters")
    else None
  }

  /** A change is accepted exactly when the two new entries agree and have
      at least 8 characters; a mismatch is reported even when the password
      is also too short. */
  lemma PasswordRejectionSpec(form: PasswordForm)
    ensures PasswordRejection(form).None? <==>
              form.newPassword == form.confirmPassword && |form.newPassword| >= 8
    ensures form.newPassword != form.confirmPassword ==>
              PasswordRejection(form) == Some("Passwords do not match")
    ensures form.newPassword == form.confirmPassword && |form.newPassword| < 8 ==>
              PasswordRejection(form) == Some("Password must be at least 8 characters")
  {
  }

  class SettingsPage {
    var loading: bool
    var profile: UserProfile
    var passwordForm: PasswordForm
    var notifications: NotificationPreferences

    constructor(session: Option<SessionUser>)
      ensures !loading && profile == InitialProfile(session)
      ensures passwordForm == InitialPasswordForm && notifications == InitialNotifications
    {
      loading := false;
      profile := InitialProfile(session);
      passwordForm := InitialPasswordForm;
      notifications := InitialNotifications;
    }

    method EditProfileField(f: ProfileField, value: string)
      modifies this
      ensures profile == EditProfile(old(profile), f, value)
      ensures loading == old(loading) && passwordForm == old(passwordForm)
      ensures notifications == old(notifications)
    {
      profile := EditProfile(profile, f, value);
    }

    method EditPasswordField(f: PasswordField, value: string)
      modifies this
      ensures passwordForm == EditPassword(old(passwordForm), f, value)
      ensures loading == old(loading) && profile == old(profile) && notifications == old(notifications)
    {
      passwordForm := EditPassword(passwordForm, f, value);
    }

    method EditNotification(e: NotificationEdit)
      modifies this
      ensures notifications == EditNotifications(old(notifications), e)
      ensures loading == old(loading) && profile == old(profile) && passwordForm == old(passwordForm)
    {
      notifications := EditNotifications(notifications, e);
    }

    /** `handlePasswordChange`: a rejected form is reported and left as it
        is, with `loading` never raised; an accepted one is cleared and
        loading ends. The mocked request cannot fail. */
    method ChangePassword() returns (toast: Result<string>)
      modifies this
      ensures profile == old(profile) && notifications == old(notifications)
      ensures PasswordRejection(old(passwordForm)).Some? ==>
                toast == Failure(PasswordRejection(old(passwordForm)).value)
                && passwordForm == old(passwordForm) && loading == old(loading)
      ensures PasswordRejection(old(passwordForm)).None? ==>
                toast == Success("Password updated successfully!")
                && passwordForm == InitialPasswordForm && !loading
    {
      if passwordForm.newPassword != passwordForm.confirmPassword {
        toast := Failure("Passwords do not match");
        return;
      }
      if |passwordForm.newPassword| < 8 {
        toast := Failure("Password must be at least 8 characters");
        return;
      }
      loading := true;
      toast := Success("Password updated successfully!");
      passwordForm := PasswordForm("", "", "");
      loading := false;
    }

    /** `handleProfileUpdate`: the mocked save reports success and changes no field. */
    method SaveProfile() returns (toast: Result<string>)
      modifies this
      ensures toast == Success("Profile updated successfully!") && !loading
      ensures profile == old(profile) && passwordForm == old(passwordForm)
      ensures notifications == old(notifications)
    {
      loading := true;
      toast := Success("Profile updated successfully!");
      loading := false;
    }

    /** `handleNotificationUpdate`, likewise. */
    method SaveNotifications() returns (toast: Result<string>)
      modifies this
      ensures toast == Success("Notification preferences updated!") && !loading
      ensures profile == old(profile) && passwordForm == old(passwordForm)
      ensures notifications == old(notifications)
    {
      loading := true;
      toast := Success("Notification preferences updated!");
      loading := false;
    }
  }
}
