/** The profile page (src/pages/Profile.tsx): a user profile record, an
    `isEditing` flag toggled by the header button, and the dark-mode and
    online-status switches. Only nickname, username and status have inputs,
    and those are rendered only while editing; the email input is read-only
    and the join date has no input, so neither ever changes. */
module ProfilePage {
  import opened Text

  datatype UserProfile = UserProfile(
    username: string,
    nickname: string,
    email: string,
    status: string,
    profilePicture: string,
    joinDate: string)

  const InitialEmail := "alex@example.com"
  const InitialJoinDate := "January 2024"
  const InitialUserProfile :=
    UserProfile("alex_chen", "Alex", InitialEmail, "Building something amazing! 🚀", "", InitialJoinDate)

  /** The fields that have an edit input, in display order. */
  datatype EditableField = Nickname | Username | Status

  function Get(p: UserProfile, f: EditableField): string {
    match f
    case Nickname => p.nickname
    case Username => p.username
    case Status => p.status
  }

  /** `{ ...userProfile, [f]: value }`. */
  function Put(p: UserProfile, f: EditableField, value: string): (q: UserProfile)
    ensures Get(q, f) == value
    ensures forall g :: g != f ==> Get(q, g) == Get(p, g)
    ensures q.email == p.email && q.joinDate == p.joinDate && q.profilePicture == p.profilePicture
  {
    match f
    case Nickname => p.(nickname := value)
    case Username => p.(username := value)
    case Status => p.(status := value)
  }

  /** Writing back what was read changes nothing, and a second write to the
      same field replaces the first. */
  lemma PutLaws(p: UserProfile, f: EditableField, v: string, w: string)
    ensures Put(p, f, Get(p, f)) == p
    ensures Put(Put(p, f, v), f, w) == Put(p, f, w)
  {
  }

  /** The edit inputs rendered in the header: all three while editing, none
      otherwise. */
  function EditInputs(isEditing: bool): (fs: seq<EditableField>)
    ensures isEditing ==> fs == [Nickname, Username, Status]
    ensures !isEditing ==> fs == []
  {
    if isEditing then [Nickname, Username, Status] else []
  }

  /** The header button's label: "Save" while editing, "Edit Profile"
      otherwise. */
  function HeaderLabel(isEditing: bool): (s: string)
    ensures s == "Save" <==> isEditing
    ensures s == "Edit Profile" <==> !isEditing
  {
    if isEditing then "Save" else "Edit Profile"
  }

  /** The label says "Save" exactly while the edit inputs are on screen. */
  lemma SaveLabelWithInputs(isEditing: bool)
    ensures HeaderLabel(isEditing) == "Save" <==> |EditInputs(isEditing)| == 3
    ensures HeaderLabel(isEditing) == "Edit Profile" <==> EditInputs(isEditing) == []
  {
  }

  /** The avatar fallback: the nickname's first two characters, upper-cased. */
  function AvatarFallback(p: UserProfile): (s: string)
    ensures |s| == if |p.nickname| < 2 then |p.nickname| else 2
    ensures forall i :: 0 <= i < |s| ==> s[i] == UpperChar(p.nickname[i])
  {
    Initials(p.nickname)
  }

  class ProfileScreen {
    var isDarkMode: bool
    var isEditing: bool
    var showOnlineStatus: bool
    var userProfile: UserProfile

    /** No handler has a path to the email or the join date. */
    predicate Valid()
      reads this
    {
      userProfile.email == InitialEmail && userProfile.joinDate == InitialJoinDate
    }

    /** Not editing, light theme, online status shown, the mock profile. */
    constructor()
      ensures Valid()
      ensures !isEditing && !isDarkMode && showOnlineStatus
      ensures userProfile == InitialUserProfile
    {
      isDarkMode := false;
      isEditing := false;
      showOnlineStatus := true;
      userProfile := InitialUserProfile;
    }

    /** handleProfileUpdate: only leaves edit mode. */
    method ProfileUpdate()
      requires Valid()
      modifies this
      ensures Valid()
      ensures !isEditing
      ensures userProfile == old(userProfile)
      ensures isDarkMode == old(isDarkMode) && showOnlineStatus == old(showOnlineStatus)
    {
      isEditing := false;
    }

    /** The header button: "Edit Profile" enters edit mode, "Save" runs
        handleProfileUpdate; either way it flips the mode and nothing else. */
    method HeaderButton()
      requires Valid()
      modifies this
      ensures Valid()
      ensures old(HeaderLabel(isEditing)) == "Save" ==> !isEditing
      ensures old(HeaderLabel(isEditing)) == "Edit Profile" ==> isEditing
      ensures isEditing == !old(isEditing)
      ensures userProfile == old(userProfile)
      ensures isDarkMode == old(isDarkMode) && showOnlineStatus == old(showOnlineStatus)
    {
      if isEditing {
        ProfileUpdate();
      } else {
        isEditing := true;
      }
    }

    /** The `onChange` of field `f`'s input, which exists only while editing. */
    method ChangeField(f: EditableField, value: string) returns (applied: bool)
      requires Valid()
      modifies this
      ensures Valid()
      ensures applied == old(isEditing)
      ensures applied <==> f in EditInputs(old(isEditing))
      ensures applied ==> userProfile == Put(old(userProfile), f, value)
      ensures !applied ==> userProfile == old(userProfile)
      ensures isEditing == old(isEditing)
      ensures isDarkMode == old(isDarkMode) && showOnlineStatus == old(showOnlineStatus)
    {
      applied := isEditing;
      if applied {
        userProfile := Put(userProfile, f, value);
      }
    }

    /** The dark-mode switch sets its flag to the switch's new value. */
    method SetDarkMode(checked: bool)
      requires Valid()
      modifies this
      ensures Valid()
      ensures isDarkMode == checked
      ensures isEditing == old(isEditing) && showOnlineStatus == old(showOnlineStatus)
      ensures userProfile == old(userProfile)
    {
      isDarkMode := checked;
    }

    /** The online-status switch sets its flag to the switch's new value. */
    method SetShowOnlineStatus(checked: bool)
      requires Valid()
      modifies this
      ensures Valid()
      ensures showOnlineStatus == checked
      ensures isEditing == old(isEditing) && isDarkMode == old(isDarkMode)
      ensures userProfile == old(userProfile)
    {
      showOnlineStatus := checked;
    }
  }

  /** Entering edit mode, typing into one field and pressing Save keeps the
      typed value, leaves edit mode and touches no other field. */
  method EditAndSave(f: EditableField, value: string) returns (shown: UserProfile, editing: bool)
    ensures Get(shown, f) == value
    ensures forall g :: g != f ==> Get(shown, g) == Get(InitialUserProfile, g)
    ensures shown.email == InitialEmail && shown.joinDate == InitialJoinDate
    ensures !editing
  {
    var page := new ProfileScreen();
    page.HeaderButton();
    var _ := page.ChangeField(f, value);
    page.HeaderButton();
    shown := page.userProfile;
    editing := page.isEditing;
  }

  /** Typing while not in edit mode changes nothing. */
  method TypeWithoutEdit(f: EditableField, value: string) returns (shown: UserProfile)
    ensures shown == InitialUserProfile
  {
    var page := new ProfileScreen();
    var _ := page.ChangeField(f, value);
    shown := page.userProfile;
  }
}
