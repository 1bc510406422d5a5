/** The account settings form (src/pages/ProfileTabs/AccountSettings.tsx): a
    profile record whose fields are edited one at a time, an `isEditing` flag
    that enables the inputs, and Edit, Save and Cancel buttons. Save only
    leaves edit mode and shows a toast; Cancel only leaves edit mode, so an
    edit survives a cancel. Controls that are disabled or not rendered in the
    current mode are modelled as handlers that do nothing and report so. */
module AccountSettings {
  import opened Text

  datatype Profile = Profile(username: string, nickname: string, email: string, status: string, avatar: string)

  const InitialProfile := Profile("john_doe", "John Doe", "john.doe@example.com", "Living life to the fullest! 🌟", "")

  /** The four fields that have an input. */
  datatype Field = Username | Nickname | Email | Status

  function Get(p: Profile, f: Field): string {
    match f
    case Username => p.username
    case Nickname => p.nickname
    case Email => p.email
    case Status => p.status
  }

  /** `{ ...profile, [f]: value }`: the field gets the value, the rest of the
      record is as it was. */
  function Put(p: Profile, f: Field, value: string): (q: Profile)
    ensures Get(q, f) == value
    ensures forall g :: g != f ==> Get(q, g) == Get(p, g)
    ensures q.avatar == p.avatar
  {
    match f
    case Username => p.(username := value)
    case Nickname => p.(nickname := value)
    case Email => p.(email := value)
    case Status => p.(status := value)
  }

  /** Writing back what was read changes nothing, and a second write to the
      same field replaces the first. */
  lemma PutLaws(p: Profile, f: Field, v: string, w: string)
    ensures Put(p, f, Get(p, f)) == p
    ensures Put(Put(p, f, v), f, w) == Put(p, f, w)
  {
  }

  /** Writes to different fields commute. */
  lemma PutCommutes(p: Profile, f: Field, g: Field, v: string, w: string)
    requires f != g
    ensures Put(Put(p, f, v), g, w) == Put(Put(p, g, w), f, v)
  {
  }

  /** The avatar fallback: the nickname's first two characters, upper-cased. */
  function AvatarFallback(p: Profile): (s: string)
    ensures |s| == if |p.nickname| < 2 then |p.nickname| else 2
    ensures forall i :: 0 <= i < |s| ==> s[i] == UpperChar(p.nickname[i])
  {
    Initials(p.nickname)
  }

  /** Only a nickname edit can change the avatar fallback. */
  lemma FallbackFollowsNickname(p: Profile, f: Field, v: string)
    requires f != Nickname
    ensures AvatarFallback(Put(p, f, v)) == AvatarFallback(p)
  {
  }

  datatype Toast = Toast(title: string, description: string)

  const SavedToast := Toast("Profile Updated", "Your profile changes have been saved successfully.")

  class SettingsForm {
    var isEditing: bool
    var profile: Profile
    /** The toasts shown so far, oldest first. */
    var toasts: seq<Toast>

    /** The form starts with the mock profile, not editing. */
    constructor()
      ensures !isEditing && profile == InitialProfile && toasts == []
    {
      isEditing := false;
      profile := InitialProfile;
      toasts := [];
    }

    /** "Edit Profile", rendered only when not editing: enters edit mode. */
    method Edit() returns (applied: bool)
      modifies this
      ensures applied == !old(isEditing)
      ensures isEditing
      ensures profile == old(profile) && toasts == old(toasts)
    {
      applied := !isEditing;
      isEditing := true;
    }

    /** "Save Changes", rendered only when editing: leaves edit mode, keeps
        the edited values and shows the saved toast. */
    method Save() returns (applied: bool)
      modifies this
      ensures applied == old(isEditing)
      ensures !isEditing && profile == old(profile)
      ensures applied ==> toasts == old(toasts) + [SavedToast]
      ensures !applied ==> toasts == old(toasts)
    {
      applied := isEditing;
      if applied {
        isEditing := false;
        toasts := toasts + [SavedToast];
      }
    }

    /** "Cancel", rendered only when editing: leaves edit mode and restores
        nothing. */
    method Cancel() returns (applied: bool)
      modifies this
      ensures applied == old(isEditing)
      ensures !isEditing && profile == old(profile) && toasts == old(toasts)
    {
      applied := isEditing;
      isEditing := false;
    }

    /** The `onChange` of field `f`'s input, which is disabled unless editing. */
    method ChangeField(f: Field, value: string) returns (applied: bool)
      modifies this
      ensures applied == old(isEditing)
      ensures applied ==> profile == Put(old(profile), f, value)
      ensures !applied ==> profile == old(profile)
      ensures isEditing == old(isEditing) && toasts == old(toasts)
    {
      applied := isEditing;
      if applied {
        profile := Put(profile, f, value);
      }
    }
  }

  /** Editing a field and then cancelling keeps the edit: the form shows the
      new value, is out of edit mode and showed no toast. */
  method EditThenCancel(f: Field, value: string) returns (shown: Profile, editing: bool, toasts: seq<Toast>)
    ensures Get(shown, f) == value
    ensures forall g :: g != f ==> Get(shown, g) == Get(InitialProfile, g)
    ensures !editing
    ensures toasts == []
  {
    var form := new SettingsForm();
    var _ := form.Edit();
    var _ := form.ChangeField(f, value);
    var _ := form.Cancel();
    shown := form.profile;
    editing := form.isEditing;
    toasts := form.toasts;
  }

  /** Without entering edit mode no field can be changed. */
  method ChangeWithoutEdit(f: Field, value: string) returns (shown: Profile)
    ensures shown == InitialProfile
  {
    var form := new SettingsForm();
    var _ := form.ChangeField(f, value);
    shown := form.profile;
  }
}
