/**
 * The profile page of app/profile/ProfilePage.tsx: the avatar initials, the
 * user id and the key of the statistics request, the date shown for the
 * membership start, the password checks, the update payload, and the
 * `isSubmitting`/`isUploadingAvatar` flags of the two form handlers.
 */
module ProfilePage {
  import opened Wrappers
  import opened Text
  import Session

  /** The fields of the signed-in user the page reads; `None` is `null` or `undefined`. `objectId` is `_id`. */
  datatype ProfileUser = ProfileUser(
    name: Option<string>, displayName: Option<string>, email: Option<string>,
    objectId: Option<string>, id: Option<string>, createdAt: Option<string>)

  /** A string-or-nullish value is truthy when it is a non-empty string. */
  predicate Present(v: Option<string>) {
    v.Some? && v.value != ""
  }

  // ---------------------------------------------------------------------------
  // formatDate

  const Dash := "—"

  /**
   * `formatDate`: a dash for a missing or empty value or one the date parser
   * rejects, else the locale's date form. Parsing and formatting are the
   * browser's and stay abstract.
   */
  function FormatDate(value: Option<string>, parse: string -> Option<int>, format: int -> string): (r: string)
    ensures !Present(value) ==> r == Dash
    ensures Present(value) && parse(value.value).Some? ==> r == format(parse(value.value).value)
    ensures Present(value) && parse(value.value).None? ==> r == Dash
  {
    if !Present(value) then Dash
    else match parse(value.value)
      case None => Dash
      case Some(t) => format(t)
  }

  // ---------------------------------------------------------------------------
  // initials

  /** `s.split(' ')`: the pieces between the spaces, empty ones included. */
  function Split(s: string): (r: seq<string>)
    ensures |r| >= 1
    ensures forall k :: 0 <= k < |r| ==> ' ' !in r[k]
    decreases |s|
  {
    if s == [] then [""]
    else if s[0] == ' ' then [""] + Split(s[1..])
    else
      var rest := Split(s[1..]);
      [[s[0]] + rest[0]] + rest[1..]
  }

  /** `pieces.join(' ')`. */
  function JoinSpaces(pieces: seq<string>): string
    requires |pieces| >= 1
  {
    if |pieces| == 1 then pieces[0] else pieces[0] + " " + JoinSpaces(pieces[1..])
  }

  /** Splitting on spaces and joining with spaces gives the string back. */
  lemma {:induction false} SplitJoin(s: string)
    ensures JoinSpaces(Split(s)) == s
    decreases |s|
  {
    if s != [] {
      SplitJoin(s[1..]);
      var rest := Split(s[1..]);
      if s[0] == ' ' {
        assert Split(s)[1..] == rest;
        assert s == " " + s[1..];
      } else {
        var pieces := Split(s);
        assert pieces[0] == [s[0]] + rest[0];
        if |rest| == 1 {
          assert s == [s[0]] + rest[0];
        } else {
          assert pieces[1..] == rest[1..];
          assert JoinSpaces(rest) == rest[0] + " " + JoinSpaces(rest[1..]);
          assert s == [s[0]] + s[1..];
        }
      }
    }
  }

  /** `segments.map(segment => segment[0] ?? '').join('')`. */
  function Heads(segments: seq<string>): string {
    if segments == [] then ""
    else (if segments[0] == "" then "" else [segments[0][0]]) + Heads(segments[1..])
  }

  /**
   * The characters of `s` that begin a word: those not a space whose
   * predecessor is a space (or, when `atStart`, that have none).
   */
  function WordStarts(s: string, atStart: bool): string {
    if s == [] then ""
    else (if atStart && s[0] != ' ' then [s[0]] else "") + WordStarts(s[1..], s[0] == ' ')
  }

  /** The heads of the split pieces are exactly the word-initial characters. */
  lemma {:induction false} HeadsOfSplit(s: string)
    ensures Heads(Split(s)) == WordStarts(s, true)
    ensures Heads(Split(s)[1..]) == WordStarts(s, false)
    decreases |s|
  {
    if s != [] {
      HeadsOfSplit(s[1..]);
      var rest := Split(s[1..]);
      if s[0] == ' ' {
        assert Split(s)[1..] == rest;
      } else {
        assert Split(s)[1..] == rest[1..];
        assert Split(s)[0] == [s[0]] + rest[0];
      }
    }
  }

  /** The name the initials come from: the first truthy of `name`, `displayName` and `email`. */
  function InitialsSource(user: Option<ProfileUser>): (r: Option<string>)
    ensures r.Some? <==> user.Some? && (Present(user.value.name) || Present(user.value.displayName) || Present(user.value.email))
    ensures r.Some? ==> r.value != "" && r in {user.value.name, user.value.displayName, user.value.email}
    ensures r.Some? && Present(user.value.name) ==> r == user.value.name
  {
    if user.None? then None
    else if Present(user.value.name) then user.value.name
    else if Present(user.value.displayName) then user.value.displayName
    else if Present(user.value.email) then user.value.email
    else None
  }

  /** The avatar fallback: `U` without a name, else the first two word initials of the source, upper-cased. */
  function Initials(user: Option<ProfileUser>): (r: string)
    ensures InitialsSource(user).None? ==> r == "U"
  {
    match InitialsSource(user)
    case None => "U"
    case Some(source) =>
      var heads := Heads(Split(source));
      ToUpper(heads[..if |heads| < 2 then |heads| else 2])
  }

  /**
   * With a name, the initials are the upper-cased first letters of its first
   * two words (a run of spaces starts no word), so there are at most two.
   */
  lemma InitialsOfWords(user: Option<ProfileUser>)
    requires InitialsSource(user).Some?
    ensures var starts := WordStarts(InitialsSource(user).value, true);
      Initials(user) == ToUpper(starts[..if |starts| < 2 then |starts| else 2])
    ensures |Initials(user)| <= 2
  {
    HeadsOfSplit(InitialsSource(user).value);
  }

  /** A name made of spaces only has no word, so its initials are empty. */
  lemma {:induction false} SpacesHaveNoInitials(s: string, atStart: bool)
    requires forall k :: 0 <= k < |s| ==> s[k] == ' '
    ensures WordStarts(s, atStart) == ""
  {
    if s != [] {
      SpacesHaveNoInitials(s[1..], true);
    }
  }

  // ---------------------------------------------------------------------------
  // userId, statsKey

  /** `user?._id || user?.id`. */
  function UserId(user: Option<ProfileUser>): (r: Option<string>)
    ensures user.Some? && Present(user.value.objectId) ==> r == user.value.objectId
    ensures user.Some? && !Present(user.value.objectId) ==> r == user.value.id
    ensures user.None? ==> r.None?
  {
    if user.None? then None
    else if Present(user.value.objectId) then user.value.objectId
    else user.value.id
  }

  /** The key of the statistics request; `null` makes the data cache skip the request. */
  function StatsKey(user: Option<ProfileUser>): (r: Option<string>)
    ensures r.None? <==> !Present(UserId(user))
    ensures r.Some? ==> r.value == "/api/users/" + UserId(user).value + "/stats"
  {
    var userId := UserId(user);
    if Present(userId) then Some("/api/users/" + userId.value + "/stats") else None
  }

  // ---------------------------------------------------------------------------
  // Passwords and the update payload

  datatype FormValues = FormValues(name: string, email: string, currentPassword: string, newPassword: string, confirmPassword: string)

  /** The warning shown under the confirmation field. */
  predicate PasswordMismatch(newPassword: string, confirmPassword: string) {
    newPassword != "" && confirmPassword != "" && newPassword != confirmPassword
  }

  /** The check `onSubmit` makes before sending. */
  predicate SubmitRejectsPasswords(values: FormValues) {
    values.newPassword != "" && values.newPassword != values.confirmPassword
  }

  /**
   * Every mismatch the form shows blocks the submit, and the submit blocks
   * one more case the warning does not show: a new password with an empty
   * confirmation.
   */
  lemma MismatchBlocksSubmit(values: FormValues)
    ensures PasswordMismatch(values.newPassword, values.confirmPassword) ==> SubmitRejectsPasswords(values)
    ensures SubmitRejectsPasswords(values) && !PasswordMismatch(values.newPassword, values.confirmPassword)
      <==> values.newPassword != "" && values.confirmPassword == ""
  {
  }

  /** The body of `PUT /api/users/<id>`; `newPassword` is left out when it is empty. */
  datatype UpdatePayload = UpdatePayload(name: string, email: string, currentPassword: string, newPassword: Option<string>)

  function Payload(values: FormValues): UpdatePayload {
    UpdatePayload(Trim(values.name), Trim(values.email), values.currentPassword,
      if values.newPassword != "" then Some(values.newPassword) else None)
  }

  /** The name and email are sent trimmed, the current password verbatim, and a new password only when one was typed. */
  lemma PayloadFields(values: FormValues)
    ensures var p := Payload(values);
      && Trimmed(p.name) && Trimmed(p.email)
      && p.name == Trim(values.name) && p.email == Trim(values.email)
      && p.currentPassword == values.currentPassword
      && (p.newPassword.Some? <==> values.newPassword != "")
      && (p.newPassword.Some? ==> p.newPassword.value == values.newPassword)
  {
  }

  datatype UpdateRequest = UpdateRequest(url: string, payload: UpdatePayload)

  /** The request `onSubmit` sends, if any. */
  function SubmitRequest(user: Option<ProfileUser>, values: FormValues): (r: Option<UpdateRequest>)
    ensures !Present(UserId(user)) ==> r.None?
    ensures SubmitRejectsPasswords(values) ==> r.None?
    ensures Present(UserId(user)) && !SubmitRejectsPasswords(values) ==>
      r == Some(UpdateRequest("/api/users/" + UserId(user).value, Payload(values)))
  {
    var userId := UserId(user);
    if !Present(userId) || SubmitRejectsPasswords(values) then None
    else Some(UpdateRequest("/api/users/" + userId.value, Payload(values)))
  }

  /** The form after a successful update: the sent name and email, every password field cleared. */
  function ResetAfterUpdate(p: UpdatePayload): FormValues {
    FormValues(p.name, p.email, "", "", "")
  }

  // ---------------------------------------------------------------------------
  // The page's state

  class ProfileState {
    var isSubmitting: bool
    var isUploadingAvatar: bool
    var form: FormValues
    /** `event.target.value` of the file input. */
    var avatarInput: string

    constructor (form: FormValues, avatarInput: string)
      ensures this.form == form && this.avatarInput == avatarInput && !isSubmitting && !isUploadingAvatar
    {
      this.form := form;
      this.avatarInput := avatarInput;
      isSubmitting := false;
      isUploadingAvatar := false;
    }

    /**
     * `onSubmit`: with a user id and acceptable passwords, sends the update
     * (`updated` says whether the request wrapper resolved), then on success
     * refreshes the session and resets the form. `isSubmitting` is false
     * again on every exit once set.
     */
    method OnSubmit(user: Option<ProfileUser>, values: FormValues, updated: bool, session: Session.AuthHook, sessionReply: Session.Reply)
      returns (sent: Option<UpdateRequest>)
      modifies this`isSubmitting, this`form, session`user, session.store
      ensures sent == SubmitRequest(user, values)
      ensures isSubmitting == if sent.Some? then false else old(isSubmitting)
      ensures form == if sent.Some? && updated then ResetAfterUpdate(sent.value.payload) else old(form)
      ensures sent.Some? && updated ==>
        session.store.State() == Session.SessionEffect(session.store.env, old(session.store.State()), sessionReply).media
      ensures !(sent.Some? && updated) ==> session.store.State() == old(session.store.State()) && session.user == old(session.user)
    {
      var userId := UserId(user);
      if !Present(userId) {
        return None;
      }
      if values.newPassword != "" && values.newPassword != values.confirmPassword {
        return None;
      }
      isSubmitting := true;
      var payload := UpdatePayload(Trim(values.name), Trim(values.email), values.currentPassword,
        if values.newPassword != "" then Some(values.newPassword) else None);
      sent := Some(UpdateRequest("/api/users/" + userId.value, payload));
      if updated {
        var u := session.RefreshUser(sessionReply);
        form := FormValues(payload.name, payload.email, "", "", "");
      }
      isSubmitting := false;
    }

    /**
     * `handleAvatarChange`: without a chosen file or a user id nothing
     * happens; otherwise the upload is sent (`uploaded` says whether it
     * resolved), the session is refreshed on success, and the flag and the
     * file input are reset on every exit.
     */
    method HandleAvatarChange(user: Option<ProfileUser>, hasFile: bool, uploaded: bool, session: Session.AuthHook, sessionReply: Session.Reply)
      returns (uploadUrl: Option<string>)
      modifies this`isUploadingAvatar, this`avatarInput, session`user, session.store
      ensures uploadUrl.Some? <==> hasFile && Present(UserId(user))
      ensures uploadUrl.Some? ==> uploadUrl.value == "/api/users/" + UserId(user).value + "/avatar"
      ensures isUploadingAvatar == if uploadUrl.Some? then false else old(isUploadingAvatar)
      ensures avatarInput == if uploadUrl.Some? then "" else old(avatarInput)
      ensures uploadUrl.Some? && uploaded ==>
        session.store.State() == Session.SessionEffect(session.store.env, old(session.store.State()), sessionReply).media
      ensures !(uploadUrl.Some? && uploaded) ==> session.store.State() == old(session.store.State()) && session.user == old(session.user)
    {
      var userId := UserId(user);
      if !hasFile || !Present(userId) {
        return None;
      }
      isUploadingAvatar := true;
      uploadUrl := Some("/api/users/" + userId.value + "/avatar");
      if uploaded {
        var u := session.RefreshUser(sessionReply);
      }
      isUploadingAvatar := false;
      avatarInput := "";
    }
  }
}
