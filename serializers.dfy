/** The request validation of `serializers.py`: the field layer REST framework runs
    before a serializer's own checks (required, blank, trimmed, length), the signup,
    login, change-password, forgot-password, reset-password and set-new-password
    validators, the partial profile update, and the "time ago" label of a
    notification. Failures come back as a map from field name to messages, as the
    framework reports them. */
module Serializers {
  import opened Wrappers
  import Text
  import Calendar
  import Accounts
  import Notifications

  /** The fields the serializers declare. */
  datatype Field = Email | Username | Password | PasswordConfirm | OldPassword
                 | NewPassword | NewPasswordConfirm | Token

  function FieldName(f: Field): string {
    match f
    case Email => "email"
    case Username => "username"
    case Password => "password"
    case PasswordConfirm => "password_confirm"
    case OldPassword => "old_password"
    case NewPassword => "new_password"
    case NewPasswordConfirm => "new_password_confirm"
    case Token => "token"
  }

  /** The messages validation can report; `Strength` carries one of Django's password
      validator messages, which are not modelled. */
  datatype Msg = Required | Blank | InvalidEmail | InvalidUuid | AtLeast(n: nat) | AtMost(n: nat)
               | EmailExists | UsernameExists | PasswordShort | PasswordsDiffer | NewPasswordsDiffer
               | NoAccount | InvalidToken | ExpiredToken | NullCharacters | Strength(text: string)

  function MsgText(m: Msg): string {
    match m
    case Required => "This field is required."
    case Blank => "This field may not be blank."
    case InvalidEmail => "Enter a valid email address."
    case InvalidUuid => "Must be a valid UUID."
    case AtLeast(n) => "Ensure this field has at least " + Text.NatToString(n) + " characters."
    case AtMost(n) => "Ensure this field has no more than " + Text.NatToString(n) + " characters."
    case EmailExists => "A user with this email already exists."
    case UsernameExists => "A user with this username already exists."
    case PasswordShort => "Password must be at least 6 characters long."
    case PasswordsDiffer => "Passwords do not match."
    case NewPasswordsDiffer => "New passwords do not match."
    case NoAccount => "No account found with this email address."
    case InvalidToken => "Invalid reset token."
    case ExpiredToken => "This reset link has expired. Please request a new one."
    case NullCharacters => "Null characters are not allowed."
    case Strength(text) => text
  }

  /** The messages of the invalid fields, by field. */
  type FieldErrors = map<Field, seq<Msg>>

  /** The messages of a `CharField`'s validators over the stripped value, in the order the
      framework runs them (maximum length, minimum length, null characters); every failing
      validator reports. */
  function CharValidators(value: string, minLength: nat, maxLength: Option<nat>): seq<Msg> {
    (if maxLength.Some? && |value| > maxLength.value then [AtMost(maxLength.value)] else [])
    + (if |value| < minLength then [AtLeast(minLength)] else [])
    + NullCheck(value)
  }

  /** `ProhibitNullCharactersValidator`. */
  function NullCheck(value: string): seq<Msg> {
    if '\0' in value then [NullCharacters] else []
  }

  /** A `CharField` with the framework's defaults (`trim_whitespace`, no blank): a
      missing value is required, an all-whitespace one is blank, and the stripped
      value must respect the length bounds (`minLength` 0 means none) and hold no
      null character. */
  function CharField(input: Option<string>, minLength: nat, maxLength: Option<nat>): (r: Result<string, seq<Msg>>)
    ensures input.None? ==> r == Err([Required])
    ensures input.Some? && Text.Strip(input.value) == [] ==> r == Err([Blank])
    ensures r.Ok? <==> input.Some? && Text.Strip(input.value) != [] && minLength <= |Text.Strip(input.value)|
                       && (maxLength.None? || |Text.Strip(input.value)| <= maxLength.value)
                       && '\0' !in Text.Strip(input.value)
    ensures r.Ok? ==> r.value == Text.Strip(input.value)
    ensures r.Err? ==> r.error != []
    ensures input.Some? && 0 < |Text.Strip(input.value)| < minLength ==> r.Err? && AtLeast(minLength) in r.error
    ensures input.Some? && 0 < |Text.Strip(input.value)| < minLength
            && (maxLength.None? || |Text.Strip(input.value)| <= maxLength.value) ==>
              r.Err? && r.error[0] == AtLeast(minLength)
    ensures input.Some? && '\0' in Text.Strip(input.value) ==> r.Err? && NullCharacters in r.error
  {
    match input
    case None => Err([Required])
    case Some(raw) =>
      var value := Text.Strip(raw);
      if value == [] then Err([Blank])
      else
        var errors := CharValidators(value, minLength, maxLength);
        if errors == [] then Ok(value) else Err(errors)
  }

  /** An `EmailField`: a `CharField` whose value must also pass the address check
      `isEmail`, which is Django's `EmailValidator` and is not modelled. The address
      check runs after the `CharField` validators, and its message is added to theirs. */
  function EmailField(input: Option<string>, isEmail: string -> bool): (r: Result<string, seq<Msg>>)
    ensures r.Ok? <==> CharField(input, 0, None).Ok? && isEmail(CharField(input, 0, None).value)
    ensures r.Ok? ==> r.value == CharField(input, 0, None).value
    ensures CharField(input, 0, None).Err? ==> r.Err? && forall m :: m in CharField(input, 0, None).error ==> m in r.error
    ensures input.Some? && Text.Strip(input.value) != [] && !isEmail(Text.Strip(input.value)) ==>
              r.Err? && InvalidEmail in r.error
  {
    var base := CharField(input, 0, None);
    if input.None? || Text.Strip(input.value) == [] then base
    else
      var value := Text.Strip(input.value);
      var errors := (if base.Err? then base.error else []) + (if isEmail(value) then [] else [InvalidEmail]);
      if errors == [] then Ok(value) else Err(errors)
  }

  /** The field names of a serializer's field list are distinct. */
  predicate DistinctFields(fields: seq<(Field, Result<string, seq<Msg>>)>) {
    forall i, j :: 0 <= i < j < |fields| ==> fields[i].0 != fields[j].0
  }

  /** A serializer's declared fields, two to four of them under different names. */
  function Fields2(a: (Field, Result<string, seq<Msg>>), b: (Field, Result<string, seq<Msg>>)): (fs: seq<(Field, Result<string, seq<Msg>>)>)
    requires a.0 != b.0
    ensures fs == [a, b] && DistinctFields(fs)
  {
    [a, b]
  }

  function Fields3(a: (Field, Result<string, seq<Msg>>), b: (Field, Result<string, seq<Msg>>),
                   c: (Field, Result<string, seq<Msg>>)): (fs: seq<(Field, Result<string, seq<Msg>>)>)
    requires a.0 != b.0 && a.0 != c.0 && b.0 != c.0
    ensures fs == [a, b, c] && DistinctFields(fs)
  {
    [a, b, c]
  }

  function Fields4(a: (Field, Result<string, seq<Msg>>), b: (Field, Result<string, seq<Msg>>),
                   c: (Field, Result<string, seq<Msg>>), d: (Field, Result<string, seq<Msg>>)): (fs: seq<(Field, Result<string, seq<Msg>>)>)
    requires a.0 != b.0 && a.0 != c.0 && a.0 != d.0 && b.0 != c.0 && b.0 != d.0 && c.0 != d.0
    ensures fs == [a, b, c, d] && DistinctFields(fs)
  {
    [a, b, c, d]
  }

  /** The framework's `to_internal_value`: every field is validated; the values come
      back in order when all pass, and otherwise every failing field's messages come
      back under its name, and nothing else. */
  function Validate(fields: seq<(Field, Result<string, seq<Msg>>)>): (r: Result<seq<string>, FieldErrors>)
    requires DistinctFields(fields)
    ensures r.Ok? <==> forall i :: 0 <= i < |fields| ==> fields[i].1.Ok?
    ensures r.Ok? ==> |r.value| == |fields| && forall i :: 0 <= i < |fields| ==> r.value[i] == fields[i].1.value
    ensures r.Err? ==> forall i :: 0 <= i < |fields| && fields[i].1.Err? ==>
                          fields[i].0 in r.error && r.error[fields[i].0] == fields[i].1.error
    ensures r.Err? ==> forall f :: f in r.error ==> exists i :: 0 <= i < |fields| && fields[i].0 == f && fields[i].1.Err?
  {
    if fields == [] then Ok([])
    else
      var rest := Validate(fields[1..]);
      assert forall i :: 1 <= i < |fields| ==> fields[1..][i - 1] == fields[i];
      match fields[0].1
      case Ok(v) =>
        (match rest
         case Ok(vs) => Ok([v] + vs)
         case Err(m) => Err(m))
      case Err(e) =>
        (match rest
         case Ok(_) => Err(map[fields[0].0 := e])
         case Err(m) => Err(m[fields[0].0 := e]))
  }

  /** Validation of a two-field serializer, spelled out. */
  lemma ValidateTwo(a: (Field, Result<string, seq<Msg>>), b: (Field, Result<string, seq<Msg>>))
    requires a.0 != b.0
    ensures Validate(Fields2(a, b)).Ok? <==> a.1.Ok? && b.1.Ok?
    ensures Validate(Fields2(a, b)).Ok? ==> Validate(Fields2(a, b)).value == [a.1.value, b.1.value]
  {
    var fs := Fields2(a, b);
    assert fs[0] == a && fs[1] == b;
    if Validate(fs).Ok? {
      assert Validate(fs).value[0] == a.1.value && Validate(fs).value[1] == b.1.value;
    }
  }

  predicate EmailTaken(users: seq<Accounts.User>, email: string) {
    exists i :: 0 <= i < |users| && users[i].email == email
  }

  predicate UsernameTaken(users: seq<Accounts.User>, username: string) {
    exists i :: 0 <= i < |users| && users[i].username == username
  }

  /** Signup's `email`: the field, then `validate_email`, which lower-cases the
      address and refuses one already registered. */
  function SignupEmail(users: seq<Accounts.User>, input: Option<string>, isEmail: string -> bool): (r: Result<string, seq<Msg>>)
    ensures r.Ok? <==> EmailField(input, isEmail).Ok? && !EmailTaken(users, Text.Lower(EmailField(input, isEmail).value))
    ensures r.Ok? ==> r.value == Text.Lower(EmailField(input, isEmail).value)
    ensures EmailField(input, isEmail).Ok? && EmailTaken(users, Text.Lower(EmailField(input, isEmail).value)) ==>
              r == Err([EmailExists])
  {
    match EmailField(input, isEmail)
    case Err(e) => Err(e)
    case Ok(value) =>
      var email := Text.Lower(value);
      if EmailTaken(users, email) then Err([EmailExists]) else Ok(email)
  }

  /** Signup's `username`: between 3 and 150 characters after trimming, and not taken. */
  function SignupUsername(users: seq<Accounts.User>, input: Option<string>): (r: Result<string, seq<Msg>>)
    ensures r.Ok? <==> CharField(input, 3, Some(150)).Ok? && !UsernameTaken(users, CharField(input, 3, Some(150)).value)
    ensures r.Ok? ==> r.value == CharField(input, 3, Some(150)).value && 3 <= |r.value| <= 150
    ensures CharField(input, 3, Some(150)).Ok? && UsernameTaken(users, CharField(input, 3, Some(150)).value) ==>
              r == Err([UsernameExists])
  {
    match CharField(input, 3, Some(150))
    case Err(e) => Err(e)
    case Ok(value) => if UsernameTaken(users, value) then Err([UsernameExists]) else Ok(value)
  }

  /** `validate_password` / `validate_new_password`: at least 6 characters, then
      Django's password validators, given as `strength` (the messages they raise). */
  function PasswordStrength(value: string, strength: string -> seq<string>): (r: Result<string, seq<Msg>>)
    ensures |value| < 6 ==> r == Err([PasswordShort])
    ensures r.Ok? <==> |value| >= 6 && strength(value) == []
    ensures r.Ok? ==> r.value == value
  {
    if |value| < 6 then Err([PasswordShort])
    else if strength(value) != [] then Err(StrengthMsgs(strength(value)))
    else Ok(value)
  }

  function StrengthMsgs(texts: seq<string>): (ms: seq<Msg>)
    ensures |ms| == |texts|
  {
    seq(|texts|, i requires 0 <= i < |texts| => Strength(texts[i]))
  }

  /** A new password: the field with `min_length=6`, then the strength check. */
  function NewPasswordField(input: Option<string>, strength: string -> seq<string>): (r: Result<string, seq<Msg>>)
    ensures r.Ok? <==> CharField(input, 6, None).Ok? && strength(CharField(input, 6, None).value) == []
    ensures r.Ok? ==> r.value == CharField(input, 6, None).value && |r.value| >= 6
    ensures CharField(input, 6, None).Err? ==> r == CharField(input, 6, None)
  {
    match CharField(input, 6, None)
    case Err(e) => Err(e)
    case Ok(value) => PasswordStrength(value, strength)
  }

  /** The field's own `min_length=6` runs first, so the shorter-than-6 message of the
      strength check is never the one reported. */
  lemma ShortPasswordReportedByField(input: Option<string>, strength: string -> seq<string>)
    requires input.Some? && 0 < |Text.Strip(input.value)| < 6
    ensures NewPasswordField(input, strength) == Err([AtLeast(6)] + NullCheck(Text.Strip(input.value)))
    ensures NewPasswordField(input, strength) != Err([PasswordShort])
  {
    var value := Text.Strip(input.value);
    assert CharValidators(value, 6, None) == [AtLeast(6)] + NullCheck(value);
  }

  datatype SignupData = SignupData(email: string, username: string, password: string)

  /** The four signup fields, each through its field and `validate_<field>` checks. */
  function SignupFields(users: seq<Accounts.User>, email: Option<string>, username: Option<string>,
                        password: Option<string>, passwordConfirm: Option<string>,
                        isEmail: string -> bool, strength: string -> seq<string>): (fs: seq<(Field, Result<string, seq<Msg>>)>)
    ensures |fs| == 4 && DistinctFields(fs)
  {
    Fields4((Email, SignupEmail(users, email, isEmail)), (Username, SignupUsername(users, username)),
            (Password, NewPasswordField(password, strength)), (PasswordConfirm, CharField(passwordConfirm, 0, None)))
  }

  /** `SignupSerializer.is_valid`: the fields, then `validate`, which refuses passwords
      that differ, reported under `password_confirm`. */
  function Signup(users: seq<Accounts.User>, email: Option<string>, username: Option<string>,
                  password: Option<string>, passwordConfirm: Option<string>,
                  isEmail: string -> bool, strength: string -> seq<string>): Result<SignupData, FieldErrors>
  {
    match Validate(SignupFields(users, email, username, password, passwordConfirm, isEmail, strength))
    case Err(errs) => Err(errs)
    case Ok(vs) =>
      if vs[2] != vs[3] then Err(map[PasswordConfirm := [PasswordsDiffer]])
      else Ok(SignupData(vs[0], vs[1], vs[2]))
  }

  /** An accepted signup carries the lower-cased, stripped address, which nobody has,
      a free username of 3 to 150 characters, and a password of at least 6 characters
      that passes the strength check and equals its confirmation. */
  lemma SignupAccepted(users: seq<Accounts.User>, email: Option<string>, username: Option<string>,
                       password: Option<string>, passwordConfirm: Option<string>,
                       isEmail: string -> bool, strength: string -> seq<string>)
    requires Signup(users, email, username, password, passwordConfirm, isEmail, strength).Ok?
    ensures var d := Signup(users, email, username, password, passwordConfirm, isEmail, strength).value;
            email.Some? && d.email == Text.Lower(Text.Strip(email.value)) && !EmailTaken(users, d.email)
            && username.Some? && d.username == Text.Strip(username.value) && !UsernameTaken(users, d.username)
            && 3 <= |d.username| <= 150
            && password.Some? && passwordConfirm.Some?
            && d.password == Text.Strip(password.value) == Text.Strip(passwordConfirm.value)
            && |d.password| >= 6 && strength(d.password) == []
  {
    var fs := SignupFields(users, email, username, password, passwordConfirm, isEmail, strength);
    assert fs[0].1.Ok? && fs[1].1.Ok? && fs[2].1.Ok? && fs[3].1.Ok?;
  }

  /** A failing field is reported with its own messages; with every field valid, the
      only refusal is the mismatch, under `password_confirm`. */
  lemma SignupRejected(users: seq<Accounts.User>, email: Option<string>, username: Option<string>,
                       password: Option<string>, passwordConfirm: Option<string>,
                       isEmail: string -> bool, strength: string -> seq<string>)
    ensures var r := Signup(users, email, username, password, passwordConfirm, isEmail, strength);
            var fs := SignupFields(users, email, username, password, passwordConfirm, isEmail, strength);
            (forall i :: 0 <= i < 4 && fs[i].1.Err? ==> r.Err? && fs[i].0 in r.error && r.error[fs[i].0] == fs[i].1.error)
            && (Validate(fs).Ok? && fs[2].1.value != fs[3].1.value ==> r == Err(map[PasswordConfirm := [PasswordsDiffer]]))
            && (Validate(fs).Ok? && fs[2].1.value == fs[3].1.value ==> r.Ok?)
  {
    var fs := SignupFields(users, email, username, password, passwordConfirm, isEmail, strength);
    var v := Validate(fs);
    if v.Err? {
      assert Signup(users, email, username, password, passwordConfirm, isEmail, strength) == Err(v.error);
    } else {
      assert v.value[2] == fs[2].1.value && v.value[3] == fs[3].1.value;
    }
  }

  /** A taken address (after lower-casing) and a short password are both refused. */
  lemma SignupRefusesTakenEmailAndShortPassword(users: seq<Accounts.User>, email: Option<string>, username: Option<string>,
                                                password: Option<string>, passwordConfirm: Option<string>,
                                                isEmail: string -> bool, strength: string -> seq<string>)
    ensures var r := Signup(users, email, username, password, passwordConfirm, isEmail, strength);
            (EmailField(email, isEmail).Ok? && EmailTaken(users, Text.Lower(EmailField(email, isEmail).value)) ==>
               r.Err? && Email in r.error && r.error[Email] == [EmailExists])
            && (password.Some? && 0 < |Text.Strip(password.value)| < 6 ==>
               r.Err? && Password in r.error && r.error[Password] == [AtLeast(6)] + NullCheck(Text.Strip(password.value)))
  {
    if EmailField(email, isEmail).Ok? && EmailTaken(users, Text.Lower(EmailField(email, isEmail).value)) {
      TakenEmailRefused(users, email, username, password, passwordConfirm, isEmail, strength);
    }
    if password.Some? && 0 < |Text.Strip(password.value)| < 6 {
      ShortPasswordRefused(users, email, username, password, passwordConfirm, isEmail, strength);
    }
  }

  /** An address someone already has, compared after lower-casing, is refused under `email`. */
  lemma TakenEmailRefused(users: seq<Accounts.User>, email: Option<string>, username: Option<string>,
                          password: Option<string>, passwordConfirm: Option<string>,
                          isEmail: string -> bool, strength: string -> seq<string>)
    requires EmailField(email, isEmail).Ok? && EmailTaken(users, Text.Lower(EmailField(email, isEmail).value))
    ensures var r := Signup(users, email, username, password, passwordConfirm, isEmail, strength);
            r.Err? && Email in r.error && r.error[Email] == [EmailExists]
  {
    var fs := SignupFields(users, email, username, password, passwordConfirm, isEmail, strength);
    assert fs[0] == (Email, Err([EmailExists]));
    SignupRejected(users, email, username, password, passwordConfirm, isEmail, strength);
  }

  /** A password of one to five characters is refused under `password` with the length message. */
  lemma ShortPasswordRefused(users: seq<Accounts.User>, email: Option<string>, username: Option<string>,
                             password: Option<string>, passwordConfirm: Option<string>,
                             isEmail: string -> bool, strength: string -> seq<string>)
    requires password.Some? && 0 < |Text.Strip(password.value)| < 6
    ensures var r := Signup(users, email, username, password, passwordConfirm, isEmail, strength);
            r.Err? && Password in r.error && r.error[Password] == [AtLeast(6)] + NullCheck(Text.Strip(password.value))
  {
    var fs := SignupFields(users, email, username, password, passwordConfirm, isEmail, strength);
    ShortPasswordReportedByField(password, strength);
    assert fs[2] == (Password, Err([AtLeast(6)] + NullCheck(Text.Strip(password.value))));
    SignupRejected(users, email, username, password, passwordConfirm, isEmail, strength);
  }

  /** `LoginSerializer`: a valid address, lower-cased, and a non-blank password. */
  function Login(email: Option<string>, password: Option<string>, isEmail: string -> bool): (r: Result<(string, string), FieldErrors>)
    ensures r.Ok? <==> EmailField(email, isEmail).Ok? && CharField(password, 0, None).Ok?
    ensures r.Ok? ==> r.value.0 == Text.Lower(Text.Strip(email.value)) && r.value.1 == Text.Strip(password.value)
  {
    var e := EmailField(email, isEmail);
    var p := CharField(password, 0, None);
    ValidateTwo((Email, e), (Password, p));
    match Validate(Fields2((Email, e), (Password, p)))
    case Err(errs) => Err(errs)
    case Ok(vs) => Ok((Text.Lower(vs[0]), vs[1]))
  }

  datatype PasswordChange = PasswordChange(oldPassword: string, newPassword: string)

  /** The three change-password fields. */
  function ChangeFields(oldPassword: Option<string>, newPassword: Option<string>, newPasswordConfirm: Option<string>,
                        strength: string -> seq<string>): (fs: seq<(Field, Result<string, seq<Msg>>)>)
    ensures |fs| == 3 && DistinctFields(fs)
  {
    Fields3((OldPassword, CharField(oldPassword, 0, None)), (NewPassword, NewPasswordField(newPassword, strength)),
            (NewPasswordConfirm, CharField(newPasswordConfirm, 0, None)))
  }

  /** `ChangePasswordSerializer`: the old password, a new one of at least 6 characters
      that passes the strength check, and a confirmation equal to it, a mismatch being
      reported under `new_password_confirm`. */
  function ChangePassword(oldPassword: Option<string>, newPassword: Option<string>, newPasswordConfirm: Option<string>,
                          strength: string -> seq<string>): Result<PasswordChange, FieldErrors>
  {
    match Validate(ChangeFields(oldPassword, newPassword, newPasswordConfirm, strength))
    case Err(errs) => Err(errs)
    case Ok(vs) =>
      if vs[1] != vs[2] then Err(map[NewPasswordConfirm := [NewPasswordsDiffer]])
      else Ok(PasswordChange(vs[0], vs[1]))
  }

  /** An accepted change has a new password of at least 6 characters that passes the
      strength check and equals its confirmation; a short new password is refused
      under `new_password`, and with valid fields the only refusal is the mismatch,
      under `new_password_confirm`. */
  lemma ChangePasswordOutcome(oldPassword: Option<string>, newPassword: Option<string>, newPasswordConfirm: Option<string>,
                              strength: string -> seq<string>)
    ensures var r := ChangePassword(oldPassword, newPassword, newPasswordConfirm, strength);
            var fs := ChangeFields(oldPassword, newPassword, newPasswordConfirm, strength);
            (r.Ok? ==> newPassword.Some? && newPasswordConfirm.Some?
                       && r.value.newPassword == Text.Strip(newPassword.value) == Text.Strip(newPasswordConfirm.value)
                       && |r.value.newPassword| >= 6 && strength(r.value.newPassword) == [])
            && (newPassword.Some? && 0 < |Text.Strip(newPassword.value)| < 6 ==>
                  r.Err? && NewPassword in r.error && r.error[NewPassword] == [AtLeast(6)] + NullCheck(Text.Strip(newPassword.value)))
            && (Validate(fs).Ok? && fs[1].1.value != fs[2].1.value ==> r == Err(map[NewPasswordConfirm := [NewPasswordsDiffer]]))
            && (Validate(fs).Ok? && fs[1].1.value == fs[2].1.value ==> r.Ok?)
  {
    var fs := ChangeFields(oldPassword, newPassword, newPasswordConfirm, strength);
    if newPassword.Some? && 0 < |Text.Strip(newPassword.value)| < 6 {
      ShortPasswordReportedByField(newPassword, strength);
      assert fs[1].1.Err?;
    }
    if Validate(fs).Ok? {
      assert fs[0].1.Ok? && fs[1].1.Ok? && fs[2].1.Ok?;
    }
  }

  /** `ForgotPasswordSerializer`: a valid address that, lower-cased, belongs to a user. */
  function ForgotPassword(users: seq<Accounts.User>, email: Option<string>, isEmail: string -> bool): (r: Result<string, FieldErrors>)
    ensures r.Ok? <==> EmailField(email, isEmail).Ok? && EmailTaken(users, Text.Lower(EmailField(email, isEmail).value))
    ensures r.Ok? ==> r.value == Text.Lower(Text.Strip(email.value)) && EmailTaken(users, r.value)
    ensures EmailField(email, isEmail).Ok? && !EmailTaken(users, Text.Lower(EmailField(email, isEmail).value)) ==>
              r == Err(map[Email := [NoAccount]])
  {
    match EmailField(email, isEmail)
    case Err(e) => Err(map[Email := e])
    case Ok(value) =>
      var lowered := Text.Lower(value);
      if EmailTaken(users, lowered) then Ok(lowered) else Err(map[Email := [NoAccount]])
  }

  /** A saved reset token; saving always sets the expiry. */
  datatype StoredToken = StoredToken(token: string, user: int, expiresAt: int, isUsed: bool)

  /** `PasswordResetToken.objects.get(token=...)`, the tokens being unique. */
  function FindToken(tokens: seq<StoredToken>, token: string): (r: Option<nat>)
    ensures r.None? <==> forall i :: 0 <= i < |tokens| ==> tokens[i].token != token
    ensures r.Some? ==> r.value < |tokens| && tokens[r.value].token == token
  {
    if |tokens| == 0 then None
    else if tokens[0].token == token then Some(0)
    else
      match FindToken(tokens[1..], token)
      case None => None
      case Some(i) => Some(i + 1)
  }

  /** The `token` field: present, and a UUID as `parseUuid` (Python's `uuid.UUID`,
      not modelled) reads it. */
  function UuidField(input: Option<string>, parseUuid: string -> Option<string>): (r: Result<string, seq<Msg>>)
    ensures input.None? ==> r == Err([Required])
    ensures r.Ok? <==> input.Some? && parseUuid(input.value).Some?
    ensures r.Ok? ==> r.value == parseUuid(input.value).value
  {
    match input
    case None => Err([Required])
    case Some(raw) => if parseUuid(raw).Some? then Ok(parseUuid(raw).value) else Err([InvalidUuid])
  }

  datatype PasswordReset = PasswordReset(token: string, newPassword: string, tokenObj: StoredToken)

  /** The three reset-password fields; `new_password` has only the field's own length
      check, without the strength check. */
  function ResetFields(token: Option<string>, newPassword: Option<string>, newPasswordConfirm: Option<string>,
                       parseUuid: string -> Option<string>): (fs: seq<(Field, Result<string, seq<Msg>>)>)
    ensures |fs| == 3 && DistinctFields(fs)
  {
    Fields3((Token, UuidField(token, parseUuid)), (NewPassword, CharField(newPassword, 6, None)),
            (NewPasswordConfirm, CharField(newPasswordConfirm, 0, None)))
  }

  /** `ResetPasswordSerializer.validate` on valid fields: the passwords must match, and
      only then is the token looked up: unknown, or found but used or expired at `now`.
      On success the token row is added to the result. */
  function ResetChecks(tokens: seq<StoredToken>, token: string, newPassword: string, newPasswordConfirm: string,
                       now: int): (r: Result<PasswordReset, FieldErrors>)
    ensures newPassword != newPasswordConfirm ==> r == Err(map[NewPasswordConfirm := [PasswordsDiffer]])
    ensures newPassword == newPasswordConfirm && FindToken(tokens, token).None? ==> r == Err(map[Token := [InvalidToken]])
    ensures newPassword == newPasswordConfirm && FindToken(tokens, token).Some? ==>
              var row := tokens[FindToken(tokens, token).value];
              (row.isUsed || now >= row.expiresAt ==> r == Err(map[Token := [ExpiredToken]]))
              && (!row.isUsed && now < row.expiresAt ==> r == Ok(PasswordReset(token, newPassword, row)))
  {
    if newPassword != newPasswordConfirm then Err(map[NewPasswordConfirm := [PasswordsDiffer]])
    else
      match FindToken(tokens, token)
      case None => Err(map[Token := [InvalidToken]])
      case Some(i) =>
        var row := tokens[i];
        if Accounts.TokenValidity(row.isUsed, Some(row.expiresAt), now) != Ok(true) then
          Err(map[Token := [ExpiredToken]])
        else Ok(PasswordReset(token, newPassword, row))
  }

  /** `ResetPasswordSerializer.is_valid`: the fields, then the checks above. */
  function ResetPassword(tokens: seq<StoredToken>, token: Option<string>, newPassword: Option<string>,
                         newPasswordConfirm: Option<string>, parseUuid: string -> Option<string>, now: int): (r: Result<PasswordReset, FieldErrors>)
    ensures Validate(ResetFields(token, newPassword, newPasswordConfirm, parseUuid)).Err? ==>
              r == Err(Validate(ResetFields(token, newPassword, newPasswordConfirm, parseUuid)).error)
    ensures Validate(ResetFields(token, newPassword, newPasswordConfirm, parseUuid)).Ok? ==>
              var vs := Validate(ResetFields(token, newPassword, newPasswordConfirm, parseUuid)).value;
              r == ResetChecks(tokens, vs[0], vs[1], vs[2], now)
  {
    var fs := ResetFields(token, newPassword, newPasswordConfirm, parseUuid);
    match Validate(fs)
    case Err(errs) => Err(errs)
    case Ok(vs) =>
      assert fs[0].1.Ok? && fs[1].1.Ok? && fs[2].1.Ok?;
      ResetChecks(tokens, vs[0], vs[1], vs[2], now)
  }

  /** An accepted reset names a token that exists, is unused and has not expired at
      `now`, and a new password of at least 6 characters equal to its confirmation. */
  lemma ResetAccepted(tokens: seq<StoredToken>, token: Option<string>, newPassword: Option<string>,
                      newPasswordConfirm: Option<string>, parseUuid: string -> Option<string>, now: int)
    requires ResetPassword(tokens, token, newPassword, newPasswordConfirm, parseUuid, now).Ok?
    ensures var d := ResetPassword(tokens, token, newPassword, newPasswordConfirm, parseUuid, now).value;
            newPassword.Some? && newPasswordConfirm.Some? && token.Some?
            && |d.newPassword| >= 6 && d.newPassword == Text.Strip(newPassword.value) == Text.Strip(newPasswordConfirm.value)
            && d.tokenObj.token == d.token == parseUuid(token.value).value
            && d.tokenObj in tokens && !d.tokenObj.isUsed && now < d.tokenObj.expiresAt
  {
    var vs := Validate(ResetFields(token, newPassword, newPasswordConfirm, parseUuid)).value;
    ResetFieldValues(token, newPassword, newPasswordConfirm, parseUuid);
    ChecksAccepted(tokens, vs[0], vs[1], vs[2], now);
  }

  /** Checks that pass leave the matching passwords and a usable row of the token table. */
  lemma ChecksAccepted(tokens: seq<StoredToken>, token: string, newPassword: string, newPasswordConfirm: string,
                       now: int)
    requires ResetChecks(tokens, token, newPassword, newPasswordConfirm, now).Ok?
    ensures var d := ResetChecks(tokens, token, newPassword, newPasswordConfirm, now).value;
            newPassword == newPasswordConfirm && d.newPassword == newPassword
            && d.tokenObj.token == d.token == token
            && d.tokenObj in tokens && !d.tokenObj.isUsed && now < d.tokenObj.expiresAt
  {
    var i := FindToken(tokens, token).value;
    assert ResetChecks(tokens, token, newPassword, newPasswordConfirm, now).value.tokenObj == tokens[i];
  }

  /** The values of valid reset fields: the parsed token and the two stripped passwords. */
  lemma ResetFieldValues(token: Option<string>, newPassword: Option<string>, newPasswordConfirm: Option<string>,
                         parseUuid: string -> Option<string>)
    requires Validate(ResetFields(token, newPassword, newPasswordConfirm, parseUuid)).Ok?
    ensures var vs := Validate(ResetFields(token, newPassword, newPasswordConfirm, parseUuid)).value;
            token.Some? && newPassword.Some? && newPasswordConfirm.Some?
            && parseUuid(token.value).Some? && vs[0] == parseUuid(token.value).value
            && vs[1] == Text.Strip(newPassword.value) && |vs[1]| >= 6
            && vs[2] == Text.Strip(newPasswordConfirm.value)
  {
    var fs := ResetFields(token, newPassword, newPasswordConfirm, parseUuid);
    assert fs[0].1.Ok? && fs[1].1.Ok? && fs[2].1.Ok?;
  }

  /** Unmatched passwords are reported whatever the token table holds. */
  lemma MismatchBeforeToken(tokens: seq<StoredToken>, token: Option<string>, newPassword: Option<string>,
                            newPasswordConfirm: Option<string>, parseUuid: string -> Option<string>, now: int)
    requires Validate(ResetFields(token, newPassword, newPasswordConfirm, parseUuid)).Ok?
    requires newPassword.Some? && newPasswordConfirm.Some?
    requires Text.Strip(newPassword.value) != Text.Strip(newPasswordConfirm.value)
    ensures ResetPassword(tokens, token, newPassword, newPasswordConfirm, parseUuid, now)
            == Err(map[NewPasswordConfirm := [PasswordsDiffer]])
  {
    var fs := ResetFields(token, newPassword, newPasswordConfirm, parseUuid);
    assert fs[1].1.Ok? && fs[2].1.Ok?;
  }

  /** `SetNewPasswordSerializer`: a new password of at least 6 characters equal to its
      confirmation. */
  function SetNewPassword(newPassword: Option<string>, newPasswordConfirm: Option<string>): (r: Result<string, FieldErrors>)
    ensures r.Ok? <==> CharField(newPassword, 6, None).Ok? && CharField(newPasswordConfirm, 0, None).Ok?
                       && CharField(newPassword, 6, None).value == CharField(newPasswordConfirm, 0, None).value
    ensures r.Ok? ==> |r.value| >= 6 && r.value == Text.Strip(newPassword.value) == Text.Strip(newPasswordConfirm.value)
    ensures CharField(newPassword, 6, None).Ok? && CharField(newPasswordConfirm, 0, None).Ok?
            && CharField(newPassword, 6, None).value != CharField(newPasswordConfirm, 0, None).value ==>
              r == Err(map[NewPasswordConfirm := [PasswordsDiffer]])
  {
    var n := CharField(newPassword, 6, None);
    var c := CharField(newPasswordConfirm, 0, None);
    ValidateTwo((NewPassword, n), (NewPasswordConfirm, c));
    match Validate(Fields2((NewPassword, n), (NewPasswordConfirm, c)))
    case Err(errs) => Err(errs)
    case Ok(vs) =>
      if vs[0] != vs[1] then Err(map[NewPasswordConfirm := [PasswordsDiffer]])
      else Ok(vs[0])
  }

  /** A model field's value as the profile update sets it. */
  datatype Value = Str(s: string) | Number(n: int) | Flag(b: bool) | Null

  /** A model instance seen through `setattr`: its fields by name. */
  class ModelInstance {
    var fields: map<string, Value>

    constructor(initial: map<string, Value>)
      ensures fields == initial
    {
      fields := initial;
    }

    /** The `for attr, value in data.items(): setattr(self, attr, value)` loop. */
    method SetAttrs(data: map<string, Value>)
      modifies this
      ensures fields == old(fields) + data
    {
      var remaining := data.Keys;
      while remaining != {}
        invariant remaining <= data.Keys
        invariant fields == old(fields) + (map k | k in data.Keys - remaining :: data[k])
        decreases remaining
      {
        var k :| k in remaining;
        fields := fields[k := data[k]];
        remaining := remaining - {k};
      }
      assert data.Keys - remaining == data.Keys;
      assert (map k | k in data.Keys :: data[k]) == data;
    }
  }

  /** Overriding with `data` changes the supplied fields, to the supplied values, and
      no other. */
  lemma OverrideChangesOnly(before: map<string, Value>, data: map<string, Value>)
    ensures (before + data).Keys == before.Keys + data.Keys
    ensures forall k :: k in data ==> (before + data)[k] == data[k]
    ensures forall k :: k in before && k !in data ==> (before + data)[k] == before[k]
  {
  }

  /** `UpdateProfileSerializer.update`: the supplied user fields are set; then, when the
      profile data is present and not empty, the user's profile (`profile`, `null` when
      the user has none, in which case the access raises) gets the supplied profile fields. */
  method UpdateProfile(instance: ModelInstance, profile: ModelInstance?, userData: map<string, Value>,
                       profileData: Option<map<string, Value>>) returns (ok: bool)
    requires profile != instance
    modifies instance, profile
    ensures instance.fields == old(instance.fields) + userData
    ensures profileData.None? || profileData.value == map[] ==>
              ok && (profile != null ==> profile.fields == old(profile.fields))
    ensures profileData.Some? && profileData.value != map[] && profile == null ==> !ok
    ensures profileData.Some? && profileData.value != map[] && profile != null ==>
              ok && profile.fields == old(profile.fields) + profileData.value
  {
    instance.SetAttrs(userData);
    ok := true;
    if profileData.Some? && profileData.value != map[] {
      if profile == null {
        ok := false;
      } else {
        profile.SetAttrs(profileData.value);
      }
    }
  }

  const MicrosPerMinute: int := 60_000_000
  const MicrosPerHour: int := 3_600_000_000

  /** How long ago something happened, as `get_time_ago` buckets it. */
  datatype Elapsed = JustNow | MinutesAgo(n: nat) | HoursAgo(n: nat) | DaysAgo(n: nat) | OnDate(instant: int)

  /** The bucket of an instant `createdAt` seen at `now`: under a minute, under an hour
      (whole minutes), under a day (whole hours), under a week (whole days), or the date. */
  function ElapsedOf(createdAt: int, now: int): (e: Elapsed)
    ensures e.JustNow? <==> now - createdAt < MicrosPerMinute
    ensures e.MinutesAgo? ==> 1 <= e.n < 60 && e.n * MicrosPerMinute <= now - createdAt < (e.n + 1) * MicrosPerMinute
    ensures e.HoursAgo? ==> 1 <= e.n < 24 && e.n * MicrosPerHour <= now - createdAt < (e.n + 1) * MicrosPerHour
    ensures e.DaysAgo? ==> 1 <= e.n < 7 && e.n * Notifications.MicrosPerDay <= now - createdAt < (e.n + 1) * Notifications.MicrosPerDay
    ensures e.OnDate? <==> now - createdAt >= 7 * Notifications.MicrosPerDay
    ensures e.OnDate? ==> e.instant == createdAt
  {
    var diff := now - createdAt;
    if diff < MicrosPerMinute then JustNow
    else if diff < MicrosPerHour then MinutesAgo(diff / MicrosPerMinute)
    else if diff < Notifications.MicrosPerDay then HoursAgo(diff / MicrosPerHour)
    else if diff < 7 * Notifications.MicrosPerDay then DaysAgo(diff / Notifications.MicrosPerDay)
    else OnDate(createdAt)
  }

  /** The order of buckets as time passes. */
  function Rank(e: Elapsed): (int, int) {
    match e
    case JustNow => (0, 0)
    case MinutesAgo(n) => (1, n)
    case HoursAgo(n) => (2, n)
    case DaysAgo(n) => (3, n)
    case OnDate(_) => (4, 0)
  }

  predicate RankLe(a: (int, int), b: (int, int)) {
    a.0 < b.0 || (a.0 == b.0 && a.1 <= b.1)
  }

  /** As `now` advances the label only moves forward: to a later bucket, or to a
      larger count in the same one. */
  lemma ElapsedMonotone(createdAt: int, now1: int, now2: int)
    requires now1 <= now2
    ensures RankLe(Rank(ElapsedOf(createdAt, now1)), Rank(ElapsedOf(createdAt, now2)))
  {
  }

  /** `strftime("%b %d")` of an instant, in UTC. */
  function ShortDate(instant: int): (s: string)
    ensures |s| == 6 && s[3] == ' '
  {
    var d := Calendar.FromOrdinal(Notifications.DayOf(instant));
    Calendar.MonthAbbr(d.month) + " " + Calendar.Pad2(d.day)
  }

  /** The text of a bucket. */
  function Render(e: Elapsed): string {
    match e
    case JustNow => "Just now"
    case MinutesAgo(n) => Text.NatToString(n) + "m ago"
    case HoursAgo(n) => Text.NatToString(n) + "h ago"
    case DaysAgo(n) => Text.NatToString(n) + "d ago"
    case OnDate(instant) => ShortDate(instant)
  }

  /** `NotificationSerializer.get_time_ago`. */
  function TimeAgo(createdAt: int, now: int): (r: string)
    ensures now - createdAt < MicrosPerMinute ==> r == "Just now"
    ensures MicrosPerMinute <= now - createdAt < MicrosPerHour ==>
              r == Text.NatToString((now - createdAt) / MicrosPerMinute) + "m ago"
    ensures MicrosPerHour <= now - createdAt < Notifications.MicrosPerDay ==>
              r == Text.NatToString((now - createdAt) / MicrosPerHour) + "h ago"
    ensures Notifications.MicrosPerDay <= now - createdAt < 7 * Notifications.MicrosPerDay ==>
              r == Text.NatToString((now - createdAt) / Notifications.MicrosPerDay) + "d ago"
    ensures now - createdAt >= 7 * Notifications.MicrosPerDay ==> r == ShortDate(createdAt)
  {
    Render(ElapsedOf(createdAt, now))
  }

  /** A count label ends in "ago". */
  lemma EndsInO(e: Elapsed)
    requires !e.JustNow? && !e.OnDate?
    ensures |Render(e)| >= 5 && Render(e)[|Render(e)| - 1] == 'o'
  {
  }

  /** Two relative labels that read the same stand for the same bucket, so the label
      can be read back. */
  lemma RelativeRenderInjective(e1: Elapsed, e2: Elapsed)
    requires !e1.OnDate? && !e2.OnDate?
    requires Render(e1) == Render(e2)
    ensures e1 == e2
  {
    var s := Render(e1);
    if !e1.JustNow? { EndsInO(e1); }
    if !e2.JustNow? { EndsInO(e2); }
    if !e1.JustNow? && !e2.JustNow? {
      var p1 := Text.NatToString(e1.n);
      var p2 := Text.NatToString(e2.n);
      assert s[|s| - 5] == Render(e2)[|s| - 5];
      assert |p1| == |p2|;
      assert p1 == s[..|p1|] == p2;
      Text.NatToStringInjective(e1.n, e2.n);
    }
  }
}
