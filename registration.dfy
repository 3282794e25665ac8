/**
 * The login and registration screen: the checks on the typed credentials,
 * and the record a new account starts with.
 */
module Registration {
  import opened Wrappers
  import opened UserDocuments
  import opened StatisticManager

  /** Kotlin's Char.isWhitespace: the Java whitespace controls and the Unicode space, line and paragraph separators. */
  function IsWhitespace(c: char): (r: bool)
    ensures c == ' ' || c == '\t' || c == '\n' || c == '\r' ==> r
    ensures ('0' <= c <= '9' || 'a' <= c <= 'z' || 'A' <= c <= 'Z' || c == '\U{85}' || c == '\U{200B}') ==> !r
  {
    c == '\t' || c == '\n' || c == '\U{B}' || c == '\U{C}' || c == '\r'
    || ('\U{1C}' <= c <= '\U{1F}')
    || c == ' ' || c == '\U{A0}' || c == '\U{1680}' || ('\U{2000}' <= c <= '\U{200A}')
    || c == '\U{2028}' || c == '\U{2029}' || c == '\U{202F}' || c == '\U{205F}' || c == '\U{3000}'
  }

  /** `s` without its leading whitespace. */
  function TrimStart(s: string): (r: string)
    ensures |r| <= |s| && r == s[|s| - |r|..]
    ensures r == [] || !IsWhitespace(r[0])
    ensures forall i | 0 <= i < |s| - |r| :: IsWhitespace(s[i])
  {
    if s != [] && IsWhitespace(s[0]) then TrimStart(s[1..]) else s
  }

  /** `s` without its trailing whitespace. */
  function TrimEnd(s: string): (r: string)
    ensures |r| <= |s| && r == s[..|r|]
    ensures r == [] || !IsWhitespace(r[|r| - 1])
    ensures forall i | |r| <= i < |s| :: IsWhitespace(s[i])
  {
    if s != [] && IsWhitespace(s[|s| - 1]) then TrimEnd(s[..|s| - 1]) else s
  }

  /**
   * Kotlin's trim(): `s` without leading and trailing whitespace. It is
   * empty exactly when `s` is blank.
   */
  function Trim(s: string): (r: string)
    ensures r == [] || (!IsWhitespace(r[0]) && !IsWhitespace(r[|r| - 1]))
    ensures r == [] <==> forall i | 0 <= i < |s| :: IsWhitespace(s[i])
  {
    TrimEnd(TrimStart(s))
  }

  /** Trimming an already trimmed name changes nothing. */
  lemma TrimIdempotent(s: string)
    ensures Trim(Trim(s)) == Trim(s)
  {
    var t := Trim(s);
    if t != [] {
      assert TrimStart(t) == t;
      assert TrimEnd(t) == t;
    }
  }

  // ---------------------------------------------------------------------
  // Registration

  /**
   * Kotlin's String.length: the number of UTF-16 code units, so a character
   * outside the Basic Multilingual Plane (a surrogate pair) counts 2.
   */
  function Utf16Length(s: string): (r: nat)
    ensures |s| <= r <= 2 * |s|
    ensures r == 0 <==> s == []
    ensures (forall i | 0 <= i < |s| :: s[i] <= '\U{FFFF}') ==> r == |s|
  {
    if s == [] then 0
    else (if s[0] > '\U{FFFF}' then 2 else 1) + Utf16Length(s[1..])
  }

  /** The UTF-16 length of a concatenation is the sum of the lengths. */
  lemma {:induction false} Utf16LengthAppend(s: string, t: string)
    ensures Utf16Length(s + t) == Utf16Length(s) + Utf16Length(t)
  {
    if s != [] {
      assert (s + t)[1..] == s[1..] + t;
      Utf16LengthAppend(s[1..], t);
    } else {
      assert s + t == t;
    }
  }

  const MinUsernameLength: nat := 3
  const MinPasswordLength: nat := 6

  datatype RegistrationError = EmptyFields | UsernameTooShort | PasswordTooShort | UsernameTaken

  /**
   * The first of attemptRegistration's guards that fails, for the trimmed
   * username and the password as typed: an empty field, then a short
   * username, then a short password. Lengths are UTF-16 lengths.
   */
  function ValidationError(username: string, password: string): (r: Option<RegistrationError>)
    ensures r.None? <==> Utf16Length(username) >= MinUsernameLength && Utf16Length(password) >= MinPasswordLength
    ensures r == Some(EmptyFields) <==> username == [] || password == []
    ensures r == Some(UsernameTooShort) <==>
      username != [] && password != [] && Utf16Length(username) < MinUsernameLength
    ensures r.Some? ==> r.value != UsernameTaken
  {
    if username == [] || password == [] then Some(EmptyFields)
    else if Utf16Length(username) < MinUsernameLength then Some(UsernameTooShort)
    else if Utf16Length(password) < MinPasswordLength then Some(PasswordTooShort)
    else None
  }

  /**
   * A name of one emoji and one letter is long enough (3 UTF-16 units), and
   * so is a password of three emoji (6 units); two ASCII letters are not.
   */
  lemma ValidationCountsUtf16Units()
    ensures ValidationError("\U{1F600}a", "secret1").None?
    ensures ValidationError("ab", "\U{1F600}\U{1F600}\U{1F600}").None? == false
    ensures ValidationError("abc", "\U{1F600}\U{1F600}\U{1F600}").None?
  {
    assert Utf16Length("\U{1F600}a") == 2 + Utf16Length("a");
    var emoji := "\U{1F600}\U{1F600}\U{1F600}";
    assert emoji[1..][1..] == "\U{1F600}";
    assert Utf16Length(emoji) == 6;
  }

  /** The days an account's first statistic covers, ending on the registration day. */
  const EmptyStatisticDays: nat := 7

  /**
   * The statistic of a new account: one session with no stages for each of
   * the seven days ending today, oldest first.
   */
  function EmptyStatistic(today: Day): (sessions: seq<Session>)
    ensures |sessions| == EmptyStatisticDays
    ensures sessions[0].date == today - 6 && sessions[|sessions| - 1].date == today
    ensures forall i, j | 0 <= i < j < |sessions| :: sessions[i].date < sessions[j].date
    ensures forall k | 0 <= k < |sessions| :: sessions[k].stages == []
    ensures WellFormedLog(sessions)
  {
    seq(EmptyStatisticDays, k => Session(today - (EmptyStatisticDays - 1) + k, []))
  }

  /** createEmptyStatistic: the seven empty sessions, appended from six days ago to today. */
  method CreateEmptyStatistic(today: Day) returns (sessions: seq<Session>)
    ensures sessions == EmptyStatistic(today)
  {
    sessions := [];
    var i: int := EmptyStatisticDays - 1;
    while i >= 0
      invariant -1 <= i <= EmptyStatisticDays - 1
      invariant |sessions| == EmptyStatisticDays - 1 - i
      invariant forall k | 0 <= k < |sessions| :: sessions[k] == Session(today - (EmptyStatisticDays - 1) + k, [])
    {
      sessions := sessions + [Session(today - i, [])];
      i := i - 1;
    }
  }

  /** A new account as stored. */
  datatype UserRecord = UserRecord(username: string, password: string, stagesProgress: string, statistic: seq<Session>)

  datatype RegistrationOutcome = Rejected(reason: RegistrationError) | Registered(user: UserRecord)

  /**
   * attemptRegistration. `existing` holds the usernames the store already
   * has; the username is trimmed, the password is not.
   */
  method AttemptRegistration(usernameInput: string, password: string, existing: set<string>, today: Day)
    returns (r: RegistrationOutcome)
    ensures ValidationError(Trim(usernameInput), password).Some? ==>
      r == Rejected(ValidationError(Trim(usernameInput), password).value)
    ensures ValidationError(Trim(usernameInput), password).None? && Trim(usernameInput) in existing ==>
      r == Rejected(UsernameTaken)
    ensures r.Registered? <==> ValidationError(Trim(usernameInput), password).None? && Trim(usernameInput) !in existing
    ensures r.Registered? ==>
      r.user == UserRecord(Trim(usernameInput), password, DefaultProgress, EmptyStatistic(today))
  {
    var username := Trim(usernameInput);
    var invalid := ValidationError(username, password);
    if invalid.Some? {
      return Rejected(invalid.value);
    }
    if username in existing {
      return Rejected(UsernameTaken);
    }
    var emptyStatistic := CreateEmptyStatistic(today);
    r := Registered(UserRecord(username, password, DefaultProgress, emptyStatistic));
  }

  /**
   * The first visit on the registration day finds that day's empty session
   * and fills it; nothing is evicted.
   */
  lemma FirstVisitOnRegistrationDay(today: Day, stage: int)
    ensures RecordVisit(EmptyStatistic(today), stage, today)
         == EmptyStatistic(today)[EmptyStatisticDays - 1 := Session(today, [stage])]
  {
    var log := EmptyStatistic(today);
    assert FirstSessionOn(log, today) == Some(EmptyStatisticDays - 1);
    assert AddStage(log[EmptyStatisticDays - 1].stages, stage) == [stage];
  }

  /** A visit on the next day appends that day and evicts the oldest empty session. */
  lemma FirstVisitOnNextDay(today: Day, stage: int)
    ensures RecordVisit(EmptyStatistic(today), stage, today + 1)
         == EmptyStatistic(today)[1..] + [Session(today + 1, [stage])]
  {
    RecordVisitEvictsOldest(EmptyStatistic(today), stage, today + 1);
  }

  /** A new account's chart is all zeros, whatever the day. */
  lemma EmptyStatisticChartsZero(today: Day, day: Day)
    ensures CountOn(EmptyStatistic(today), day) == 0
  {
    var log := EmptyStatistic(today);
    if today - 6 <= day <= today {
      var j := day - (today - 6);
      StagesOnLast(log, day, j);
      assert DistinctStages([]) == {};
    } else {
      StagesOnAbsent(log, day);
    }
  }

  // ---------------------------------------------------------------------
  // Login

  datatype LoginError = MissingFields | UserNotFound | WrongPassword

  datatype LoginOutcome = LoginFailed(error: LoginError) | LoggedIn(username: string, stagesProgress: string)

  /**
   * attemptLogin. `found` is the stored user the query for the trimmed
   * username returns, None when there is none. A missing stored password
   * reads as "", and a missing progress as the default.
   */
  function AttemptLogin(usernameInput: string, password: string, found: Option<UserDocument>): (r: LoginOutcome)
    ensures r.LoggedIn? <==>
      Trim(usernameInput) != [] && password != [] && found.Some? && found.value.password.GetOr("") == password
    ensures r.LoggedIn? ==> r.username == Trim(usernameInput) && r.stagesProgress == StoredProgress(found.value)
    ensures found.Some? && found.value.password.None? ==> r.LoginFailed?
  {
    var username := Trim(usernameInput);
    if username == [] || password == [] then LoginFailed(MissingFields)
    else match found
      case None => LoginFailed(UserNotFound)
      case Some(doc) =>
        var savedPassword := doc.password.GetOr("");
        var stagesProgress := StoredProgress(doc);
        if password == savedPassword then LoggedIn(username, stagesProgress)
        else LoginFailed(WrongPassword)
  }
}
