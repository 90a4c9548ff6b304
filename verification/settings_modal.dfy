/** The account settings dialog (web/src/components/SettingsModal.tsx):
    the username and password forms, their checks, what they send, and the
    conditions that disable their submit buttons. A form submission is one
    step from the state before it to the state after the request settles;
    how the request ends is an input. */
module SettingsModal {
  import opened Optional
  import opened JsText
  import opened I18n

  datatype Tab = UsernameTab | PasswordTab

  datatype Settings = Settings(
    tab: Tab,
    currentUsername: string,
    loading: bool,
    error: string,
    success: string,
    newUsername: string,
    oldPassword: string,
    newPassword: string,
    confirmPassword: string)

  /** How a request to the server ends: success, or a rejection whose
      message is present when it is an `Error`. */
  datatype ApiOutcome = Succeeded | Failed(message: Option<string>)

  const MinPasswordLength: nat := 6

  /** The message of a failed request: its own, or `updateFailed`. */
  function FailureText(message: Option<string>, locale: Locale): (text: string)
    ensures message.Some? ==> text == message.value
    ensures message.None? ==> text == Translate(locale, "updateFailed", [])
  {
    match message
    case Some(m) => m
    case None => Translate(locale, "updateFailed", [])
  }

  /** `handleUpdateUsername`: the username sent, if any, and the state
      after the request settles. */
  function SubmitUsername(s: Settings, outcome: ApiOutcome, locale: Locale): (r: (Option<string>, Settings))
    ensures AllSpace(s.newUsername) ==> r == (None, s)
    ensures !AllSpace(s.newUsername) ==>
              r.0 == Some(Trim(s.newUsername)) && !r.1.loading &&
              r.1.tab == s.tab && r.1.oldPassword == s.oldPassword &&
              r.1.newPassword == s.newPassword && r.1.confirmPassword == s.confirmPassword
    ensures !AllSpace(s.newUsername) && outcome == Succeeded ==>
              r.1.currentUsername == Trim(s.newUsername) && r.1.newUsername == "" &&
              r.1.error == "" && r.1.success == Translate(locale, "usernameUpdated", [])
    ensures !AllSpace(s.newUsername) && outcome.Failed? ==>
              r.1.currentUsername == s.currentUsername && r.1.newUsername == s.newUsername &&
              r.1.error == FailureText(outcome.message, locale) && r.1.success == ""
  {
    var name := Trim(s.newUsername);
    if name == [] then (None, s)
    else
      var pending := s.(loading := true, error := "", success := "");
      var settled := match outcome
        case Succeeded =>
          pending.(success := Translate(locale, "usernameUpdated", []), currentUsername := name, newUsername := "")
        case Failed(m) => pending.(error := FailureText(m, locale));
      (Some(name), settled.(loading := false))
  }

  /** The username sent is never blank and carries no surrounding
      whitespace; trimming it again changes nothing. */
  lemma SentUsernameIsTrimmed(s: Settings, outcome: ApiOutcome, locale: Locale)
    requires SubmitUsername(s, outcome, locale).0.Some?
    ensures var name := SubmitUsername(s, outcome, locale).0.value;
            name != [] && !IsSpace(name[0]) && !IsSpace(name[|name| - 1]) && Trim(name) == name
  {
    TrimIdempotent(s.newUsername);
  }

  /** The result of the two password checks, in the order they run. */
  datatype PasswordCheck = TooShort | Mismatch | Accepted

  /** The length test comes first: a short password is reported as short
      whether or not the confirmation matches. */
  function CheckPassword(newPassword: string, confirmPassword: string): (c: PasswordCheck)
    ensures c == TooShort <==> Utf16Length(newPassword) < MinPasswordLength
    ensures c == Mismatch <==> Utf16Length(newPassword) >= MinPasswordLength && newPassword != confirmPassword
    ensures c == Accepted <==> Utf16Length(newPassword) >= MinPasswordLength && newPassword == confirmPassword
  {
    if Utf16Length(newPassword) < MinPasswordLength then TooShort
    else if newPassword != confirmPassword then Mismatch
    else Accepted
  }

  /** `handleUpdatePassword`: the (old, new) pair sent, if any, and the
      state after the request settles. */
  function SubmitPassword(s: Settings, outcome: ApiOutcome, locale: Locale): (r: (Option<(string, string)>, Settings))
    ensures r.0.Some? <==> CheckPassword(s.newPassword, s.confirmPassword) == Accepted
    ensures r.0.Some? ==> r.0.value == (s.oldPassword, s.newPassword)
    ensures r.1.tab == s.tab && r.1.currentUsername == s.currentUsername && r.1.newUsername == s.newUsername
    ensures CheckPassword(s.newPassword, s.confirmPassword) == TooShort ==>
              r.1 == s.(error := Translate(locale, "passwordTooShort", []), success := "")
    ensures CheckPassword(s.newPassword, s.confirmPassword) == Mismatch ==>
              r.1 == s.(error := Translate(locale, "passwordMismatch", []), success := "")
    ensures r.0.Some? && outcome == Succeeded ==>
              r.1.oldPassword == "" && r.1.newPassword == "" && r.1.confirmPassword == "" &&
              r.1.error == "" && r.1.success == Translate(locale, "passwordUpdated", []) && !r.1.loading
    ensures r.0.Some? && outcome.Failed? ==>
              r.1 == s.(error := FailureText(outcome.message, locale), success := "", loading := false)
  {
    var cleared := s.(error := "", success := "");
    match CheckPassword(s.newPassword, s.confirmPassword)
    case TooShort => (None, cleared.(error := Translate(locale, "passwordTooShort", [])))
    case Mismatch => (None, cleared.(error := Translate(locale, "passwordMismatch", [])))
    case Accepted =>
      var pending := cleared.(loading := true);
      var settled := match outcome
        case Succeeded =>
          pending.(success := Translate(locale, "passwordUpdated", []),
                   oldPassword := "", newPassword := "", confirmPassword := "")
        case Failed(m) => pending.(error := FailureText(m, locale));
      (Some((s.oldPassword, s.newPassword)), settled.(loading := false))
  }

  /** With a short new password, the confirmation field has no influence on
      what happens. */
  lemma ShortPasswordIgnoresConfirmation(s: Settings, c1: string, c2: string, outcome: ApiOutcome, locale: Locale)
    requires Utf16Length(s.newPassword) < MinPasswordLength
    ensures SubmitPassword(s.(confirmPassword := c1), outcome, locale).0.None?
    ensures SubmitPassword(s.(confirmPassword := c1), outcome, locale).1.error
            == SubmitPassword(s.(confirmPassword := c2), outcome, locale).1.error
  {
  }

  /** `disabled` of the username submit button. */
  function UsernameSubmitDisabled(s: Settings): (disabled: bool)
    ensures disabled <==> s.loading || AllSpace(s.newUsername)
  {
    s.loading || Trim(s.newUsername) == []
  }

  /** `disabled` of the password submit button. */
  function PasswordSubmitDisabled(s: Settings): (disabled: bool)
    ensures disabled <==> s.loading || s.oldPassword == [] || s.newPassword == [] || s.confirmPassword == []
  {
    s.loading || s.oldPassword == "" || s.newPassword == "" || s.confirmPassword == ""
  }

  /** An enabled username button always leads to a request. */
  lemma EnabledUsernameSends(s: Settings, outcome: ApiOutcome, locale: Locale)
    requires !UsernameSubmitDisabled(s)
    ensures SubmitUsername(s, outcome, locale).0 == Some(Trim(s.newUsername))
  {
  }

  /** An enabled password button never sends an empty password, and sends
      the pair exactly when the new password is long enough and confirmed. */
  lemma EnabledPasswordSends(s: Settings, outcome: ApiOutcome, locale: Locale)
    requires !PasswordSubmitDisabled(s)
    ensures !s.loading
    ensures SubmitPassword(s, outcome, locale).0.Some? ==>
              SubmitPassword(s, outcome, locale).0.value.0 != "" && SubmitPassword(s, outcome, locale).0.value.1 != ""
    ensures SubmitPassword(s, outcome, locale).0.Some? <==>
              Utf16Length(s.newPassword) >= MinPasswordLength && s.newPassword == s.confirmPassword
  {
  }

  /** Selecting a tab clears both messages and nothing else. */
  function SelectTab(s: Settings, tab: Tab): (r: Settings)
    ensures r.tab == tab && r.error == "" && r.success == ""
    ensures r.(tab := s.tab, error := s.error, success := s.success) == s
  {
    s.(tab := tab, error := "", success := "")
  }

  /** The dialog's five messages have no entry in either translation
      table. */
  lemma MessagesHaveNoEntry()
    ensures Texts("usernameUpdated").None? && Texts("updateFailed").None?
    ensures Texts("passwordTooShort").None? && Texts("passwordMismatch").None?
    ensures Texts("passwordUpdated").None?
  {
  }

  /** So `t` shows their keys, in either locale. */
  lemma MessagesUntranslated(locale: Locale, key: string)
    requires key in ["usernameUpdated", "updateFailed", "passwordTooShort", "passwordMismatch", "passwordUpdated"]
    ensures Translate(locale, key, []) == key
  {
    MessagesHaveNoEntry();
    LookupNeverFallsBack(locale, key);
  }
}
