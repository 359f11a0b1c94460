/** The account records of `models.py`: the `UserManager` that builds users and
    superusers, the name helpers of `User`, and the expiry rule of
    `PasswordResetToken`. Instants are microseconds since the epoch. */
module Accounts {
  import opened Wrappers
  import Text

  /** `set_password(None)` stores an unusable password; any other value is hashed,
      which is left to Django, so the model keeps the raw value. */
  datatype Password = Usable(raw: string) | Unusable

  /** The optional keyword arguments of `create_user` that the model tracks;
      `None` means the keyword was not passed. */
  datatype Extra = Extra(isStaff: Option<bool>, isSuperuser: Option<bool>, isActive: Option<bool>,
                         firstName: string, lastName: string)

  /** A saved user row. */
  datatype User = User(id: int, email: string, username: string, firstName: string, lastName: string,
                       password: Password, isStaff: bool, isSuperuser: bool, isActive: bool)

  const EmailRequired := "The Email field must be set"
  const UsernameRequired := "The Username field must be set"
  const StaffRequired := "Superuser must have is_staff=True."
  const SuperuserRequired := "Superuser must have is_superuser=True."

  /** The last position of `c` in `s`, if any. */
  function LastIndexOf(s: string, c: char): (r: Option<nat>)
    ensures r.None? <==> c !in s
    ensures r.Some? ==> r.value < |s| && s[r.value] == c && c !in s[r.value + 1..]
  {
    if |s| == 0 then None
    else if s[|s| - 1] == c then Some(|s| - 1)
    else
      var r := LastIndexOf(s[..|s| - 1], c);
      assert s[..|s| - 1] + [s[|s| - 1]] == s;
      if r.Some? then assert s[r.value + 1..] == s[..|s| - 1][r.value + 1..] + [s[|s| - 1]]; r else r
  }

  /** `BaseUserManager.normalize_email`: the stripped address with the part after its
      last `@` lower-cased; an address without `@` is returned untouched. */
  function NormalizeEmail(email: string): (r: string)
    ensures '@' !in Text.Strip(email) ==> r == email
  {
    var s := Text.Strip(email);
    match LastIndexOf(s, '@')
    case None => email
    case Some(i) => s[..i] + "@" + Text.Lower(s[i + 1..])
  }

  /** Lower-casing keeps characters that are neither spaces nor `@` so. */
  lemma LowerKeepsClass(s: string)
    ensures !('@' in s) ==> '@' !in Text.Lower(s)
    ensures |s| > 0 && !Text.IsSpace(s[|s| - 1]) ==> !Text.IsSpace(Text.Lower(s)[|s| - 1])
    ensures Text.Lower(Text.Lower(s)) == Text.Lower(s)
  {
    if '@' !in s {
      forall i | 0 <= i < |s| ensures Text.Lower(s)[i] != '@' { }
    }
  }

  /** A string with no space at either end is its own strip. */
  lemma StripOfTrimmed(s: string)
    requires s == [] || (!Text.IsSpace(s[0]) && !Text.IsSpace(s[|s| - 1]))
    ensures Text.Strip(s) == s
  {
  }

  /** Splitting `a + "@" + b` at its last `@` gives back `a` and `b` when `b` has none. */
  lemma JoinAtLast(a: string, b: string)
    requires '@' !in b
    ensures var r := a + "@" + b;
            LastIndexOf(r, '@') == Some(|a|) && r[..|a|] == a && r[|a| + 1..] == b
  {
    var r := a + "@" + b;
    assert r[|a|] == '@';
    assert r[|a| + 1..] == b;
    assert r[..|a|] == a;
  }

  /** An address already in normal form: no space at either end and a lower-cased
      domain after its last `@`. Normalizing leaves it and its `@` where they are. */
  lemma NormalFormStable(s: string, i: nat)
    requires i < |s| && s[i] == '@' && '@' !in s[i + 1..]
    requires !Text.IsSpace(s[0]) && !Text.IsSpace(s[|s| - 1])
    ensures var r := s[..i] + "@" + Text.Lower(s[i + 1..]);
            Text.Strip(r) == r && LastIndexOf(r, '@') == Some(i)
            && r[..i] == s[..i] && Text.Lower(r[i + 1..]) == r[i + 1..]
  {
    var local, domain := s[..i], s[i + 1..];
    var lowered := Text.Lower(domain);
    var r := local + "@" + lowered;
    LowerKeepsClass(domain);
    JoinAtLast(local, lowered);
    assert r[0] == s[0] by { if i > 0 { assert r[0] == local[0]; } }
    if |domain| > 0 {
      assert domain[|domain| - 1] == s[|s| - 1];
      assert r[|r| - 1] == lowered[|domain| - 1];
    } else {
      assert r[|r| - 1] == s[|s| - 1];
    }
    StripOfTrimmed(r);
    assert r[i + 1..] == lowered;
    assert Text.Lower(lowered) == lowered;
  }

  /** Normalizing an address twice gives what normalizing it once gives. */
  lemma NormalizeEmailIdempotent(email: string)
    ensures NormalizeEmail(NormalizeEmail(email)) == NormalizeEmail(email)
  {
    var j := LastIndexOf(Text.Strip(email), '@');
    if j.Some? {
      IdempotentAt(email, j.value);
    }
  }

  /** Idempotence for an address whose stripped form has its last `@` at `i`. */
  lemma IdempotentAt(email: string, i: nat)
    requires LastIndexOf(Text.Strip(email), '@') == Some(i)
    ensures NormalizeEmail(NormalizeEmail(email)) == NormalizeEmail(email)
  {
    var s := Text.Strip(email);
    var r := s[..i] + "@" + Text.Lower(s[i + 1..]);
    Text.StripHasNoOuterSpace(email);
    NormalFormStable(s, i);
    NormalizeAt(email, i);
    assert NormalizeEmail(email) == r;
    NormalFormFixed(r, i);
    assert NormalizeEmail(r) == r;
  }

  /** An address in normal form is left alone by normalization. */
  lemma NormalFormFixed(r: string, i: nat)
    requires Text.Strip(r) == r && LastIndexOf(r, '@') == Some(i) && Text.Lower(r[i + 1..]) == r[i + 1..]
    ensures NormalizeEmail(r) == r
  {
    NormalizeAt(r, i);
    SplitAround(r, i);
  }

  /** A string is its prefix, its `i`-th character and its suffix put back together. */
  lemma SplitAround(r: string, i: nat)
    requires i < |r|
    ensures r == r[..i] + [r[i]] + r[i + 1..]
  {
  }

  /** The normal form of an address whose stripped form has its last `@` at `i`. */
  lemma NormalizeAt(email: string, i: nat)
    requires LastIndexOf(Text.Strip(email), '@') == Some(i)
    ensures i < |Text.Strip(email)|
    ensures NormalizeEmail(email) == Text.Strip(email)[..i] + "@" + Text.Lower(Text.Strip(email)[i + 1..])
  {
    var s := Text.Strip(email);
    var j := LastIndexOf(s, '@');
    assert j == Some(i);
  }

  /** With an `@`, the normal form keeps the stripped address up to its last `@` and
      lower-cases what follows. */
  lemma NormalizeEmailParts(email: string)
    requires '@' in Text.Strip(email)
    ensures var s := Text.Strip(email);
            exists i :: 0 <= i < |s| && s[i] == '@' && '@' !in s[i + 1..]
                        && NormalizeEmail(email) == s[..i] + "@" + Text.Lower(s[i + 1..])
  {
    var s := Text.Strip(email);
    var i := LastIndexOf(s, '@').value;
    assert s[i] == '@' && '@' !in s[i + 1..];
  }

  /** `create_user`'s guards, the normalised address, the password rule and the model
      defaults (`is_active` true, `is_staff` and `is_superuser` false) for the user
      with id `id`. */
  function NewUser(id: int, email: string, username: string, password: Option<string>, extra: Extra): (r: Result<User, string>)
    ensures email == "" ==> r == Err(EmailRequired)
    ensures email != "" && username == "" ==> r == Err(UsernameRequired)
    ensures email != "" && username != "" ==>
              r.Ok? && r.value.id == id && r.value.email == NormalizeEmail(email) && r.value.username == username
              && (password.None? <==> r.value.password == Unusable)
              && (password.Some? ==> r.value.password == Usable(password.value))
              && r.value.isActive == extra.isActive.GetOr(true)
              && r.value.isStaff == extra.isStaff.GetOr(false)
              && r.value.isSuperuser == extra.isSuperuser.GetOr(false)
              && r.value.firstName == extra.firstName && r.value.lastName == extra.lastName
  {
    if email == "" then Err(EmailRequired)
    else if username == "" then Err(UsernameRequired)
    else
      var pw := if password.None? then Unusable else Usable(password.value);
      Ok(User(id, NormalizeEmail(email), username, extra.firstName, extra.lastName, pw,
              extra.isStaff.GetOr(false), extra.isSuperuser.GetOr(false), extra.isActive.GetOr(true)))
  }

  /** `create_superuser`'s three `setdefault` calls. */
  function SuperuserExtra(extra: Extra): (r: Extra)
    ensures r.isStaff == Some(extra.isStaff.GetOr(true))
    ensures r.isSuperuser == Some(extra.isSuperuser.GetOr(true))
    ensures r.isActive == Some(extra.isActive.GetOr(true))
    ensures r.firstName == extra.firstName && r.lastName == extra.lastName
  {
    Extra(Some(extra.isStaff.GetOr(true)), Some(extra.isSuperuser.GetOr(true)),
          Some(extra.isActive.GetOr(true)), extra.firstName, extra.lastName)
  }

  /** After the defaults, a flag is not `True` exactly when the caller passed `False`. */
  lemma SuperuserChecks(extra: Extra)
    ensures SuperuserExtra(extra).isStaff != Some(true) <==> extra.isStaff == Some(false)
    ensures SuperuserExtra(extra).isSuperuser != Some(true) <==> extra.isSuperuser == Some(false)
  {
    match extra.isStaff {
      case None =>
      case Some(b) =>
    }
    match extra.isSuperuser {
      case None =>
      case Some(b) =>
    }
  }

  /** The user table that `UserManager` saves into. */
  class UserTable {
    var users: seq<User>
    var nextId: int

    constructor(initial: seq<User>, next: int)
      ensures users == initial && nextId == next
    {
      users := initial;
      nextId := next;
    }

    /** `create_user`: raises on an empty address or username; otherwise saves one user. */
    method CreateUser(email: string, username: string, password: Option<string>, extra: Extra) returns (r: Result<User, string>)
      modifies this
      ensures r == NewUser(old(nextId), email, username, password, extra)
      ensures r.Err? ==> users == old(users) && nextId == old(nextId)
      ensures r.Ok? ==> users == old(users) + [r.value] && nextId == old(nextId) + 1
    {
      r := NewUser(nextId, email, username, password, extra);
      if r.Ok? {
        users := users + [r.value];
        nextId := nextId + 1;
      }
    }

    /** `create_superuser`: fills in the three flags, refuses a superuser that is not staff
        or not superuser, then goes through `create_user`. */
    method CreateSuperuser(email: string, username: string, password: Option<string>, extra: Extra) returns (r: Result<User, string>)
      modifies this
      ensures extra.isStaff == Some(false) ==> r == Err(StaffRequired)
      ensures extra.isStaff != Some(false) && extra.isSuperuser == Some(false) ==> r == Err(SuperuserRequired)
      ensures extra.isStaff != Some(false) && extra.isSuperuser != Some(false) ==>
                r == NewUser(old(nextId), email, username, password, SuperuserExtra(extra))
      ensures r.Err? ==> users == old(users) && nextId == old(nextId)
      ensures r.Ok? ==> users == old(users) + [r.value] && nextId == old(nextId) + 1
    {
      var e := SuperuserExtra(extra);
      SuperuserChecks(extra);
      if e.isStaff != Some(true) {
        return Err(StaffRequired);
      }
      if e.isSuperuser != Some(true) {
        return Err(SuperuserRequired);
      }
      r := CreateUser(email, username, password, e);
    }
  }

  /** A superuser built without explicit flags is active, staff and superuser. */
  lemma SuperuserDefaults(id: int, email: string, username: string, password: Option<string>, first: string, last: string)
    requires email != "" && username != ""
    ensures var r := NewUser(id, email, username, password, SuperuserExtra(Extra(None, None, None, first, last)));
            r.Ok? && r.value.isStaff && r.value.isSuperuser && r.value.isActive
  {
  }

  /** `get_full_name`: first and last name joined by a space and stripped, or the
      username when that is empty. */
  function FullName(firstName: string, lastName: string, username: string): (r: string)
    ensures Text.Strip(firstName + " " + lastName) != [] ==> r == Text.Strip(firstName + " " + lastName)
    ensures Text.Strip(firstName + " " + lastName) == [] ==> r == username
  {
    var full := Text.Strip(firstName + " " + lastName);
    if full != [] then full else username
  }

  /** The full name falls back to the username exactly when both name parts are blank;
      otherwise it has no space at either end. */
  lemma FullNameFallback(firstName: string, lastName: string, username: string)
    ensures Text.Strip(firstName + " " + lastName) == [] <==> Text.AllSpace(firstName) && Text.AllSpace(lastName)
    ensures !(Text.AllSpace(firstName) && Text.AllSpace(lastName)) ==>
              var r := FullName(firstName, lastName, username);
              r != [] && !Text.IsSpace(r[0]) && !Text.IsSpace(r[|r| - 1])
  {
    var joined := firstName + " " + lastName;
    Text.StripEmptyIffAllSpace(joined);
    Text.StripHasNoOuterSpace(joined);
    if Text.AllSpace(firstName) && Text.AllSpace(lastName) {
      forall i | 0 <= i < |joined| ensures Text.IsSpace(joined[i]) {
        if i < |firstName| { assert joined[i] == firstName[i]; }
        else if i > |firstName| { assert joined[i] == lastName[i - |firstName| - 1]; }
      }
    } else if !Text.AllSpace(firstName) {
      var i :| 0 <= i < |firstName| && !Text.IsSpace(firstName[i]);
      assert joined[i] == firstName[i];
    } else {
      var i :| 0 <= i < |lastName| && !Text.IsSpace(lastName[i]);
      assert joined[|firstName| + 1 + i] == lastName[i];
    }
  }

  /** `get_short_name`: the first name, or the username when it is empty. */
  function ShortName(firstName: string, username: string): (r: string)
    ensures firstName != [] ==> r == firstName
    ensures firstName == [] ==> r == username
  {
    if firstName != [] then firstName else username
  }

  /** One hour in microseconds (`timedelta(hours=1)`). */
  const ResetLifetime: int := 3_600_000_000

  /** `is_valid`: a used token is invalid; an unused token is valid while `now` is
      before its expiry; an unused token without expiry makes the comparison raise. */
  function TokenValidity(isUsed: bool, expiresAt: Option<int>, now: int): (r: Result<bool, string>)
    ensures isUsed ==> r == Ok(false)
    ensures !isUsed && expiresAt.None? ==> r.Err?
    ensures !isUsed && expiresAt.Some? ==> r == Ok(now < expiresAt.value)
  {
    if isUsed then Ok(false)
    else if expiresAt.None? then Err("TypeError")
    else Ok(now < expiresAt.value)
  }

  /** A password-reset token row, with fields as `save` and `is_valid` see them; `saved`
      says whether the row has been inserted yet. */
  class PasswordResetToken {
    var user: int
    var token: string
    var createdAt: int
    var expiresAt: Option<int>
    var isUsed: bool
    var saved: bool

    /** A new, unsaved instance; the `createdAt` given is overwritten on the first save. */
    constructor(user: int, token: string, createdAt: int, expiresAt: Option<int>)
      ensures this.user == user && this.token == token && this.createdAt == createdAt
      ensures this.expiresAt == expiresAt && !isUsed && !saved
    {
      this.user := user;
      this.token := token;
      this.createdAt := createdAt;
      this.expiresAt := expiresAt;
      isUsed := false;
      saved := false;
    }

    /** `save`: a token without expiry expires one hour after `now`; an expiry that is
        already set is kept. On the first save `auto_now_add` stamps `createdAt` with
        `now`; a later save keeps it. */
    method Save(now: int)
      modifies this
      ensures old(expiresAt).None? ==> expiresAt == Some(now + ResetLifetime)
      ensures old(expiresAt).Some? ==> expiresAt == old(expiresAt)
      ensures !old(saved) ==> createdAt == now
      ensures old(saved) ==> createdAt == old(createdAt)
      ensures saved
      ensures user == old(user) && token == old(token) && isUsed == old(isUsed)
    {
      if expiresAt.None? {
        expiresAt := Some(now + ResetLifetime);
      }
      if !saved {
        createdAt := now;
      }
      saved := true;
    }

    function IsValid(now: int): (r: Result<bool, string>)
      reads this
      ensures r == TokenValidity(isUsed, expiresAt, now)
    {
      TokenValidity(isUsed, expiresAt, now)
    }
  }

  /** A fresh token saved at `created` is valid at `now` exactly during the following
      hour (and before it), until it is used. */
  lemma FreshTokenLifetime(created: int, now: int, isUsed: bool)
    ensures TokenValidity(isUsed, Some(created + ResetLifetime), now) == Ok(!isUsed && now < created + ResetLifetime)
  {
  }
}
