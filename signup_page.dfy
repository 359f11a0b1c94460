/** The sign-up page (`pages/Signup.jsx`): the form checks made before anything is
    sent, and the message shown when the server refuses the sign-up. */
module SignupPage {
  import opened Wrappers

  datatype SignupForm = SignupForm(email: string, username: string, password: string, passwordConfirm: string)

  /** The first check a form fails. */
  datatype FormError = MissingField | ShortUsername | ShortPassword | PasswordsDiffer

  function FormErrorText(e: FormError): string {
    match e
    case MissingField => "Please fill in all fields"
    case ShortUsername => "Username must be at least 3 characters"
    case ShortPassword => "Password must be at least 6 characters"
    case PasswordsDiffer => "Passwords do not match"
  }

  /** `validateForm`: the checks in order, reporting only the first that fails. */
  function ValidateForm(f: SignupForm): (r: Option<FormError>)
    ensures r.None? <==> f.email != "" && f.username != "" && f.password != "" && f.passwordConfirm != ""
                         && |f.username| >= 3 && |f.password| >= 6 && f.password == f.passwordConfirm
    ensures r == Some(MissingField) <==> f.email == "" || f.username == "" || f.password == "" || f.passwordConfirm == ""
    ensures r == Some(ShortUsername) <==> !(f.email == "" || f.username == "" || f.password == "" || f.passwordConfirm == "")
                                          && |f.username| < 3
    ensures r == Some(ShortPassword) <==> !(f.email == "" || f.username == "" || f.password == "" || f.passwordConfirm == "")
                                          && |f.username| >= 3 && |f.password| < 6
    ensures r == Some(PasswordsDiffer) <==> !(f.email == "" || f.username == "" || f.password == "" || f.passwordConfirm == "")
                                            && |f.username| >= 3 && |f.password| >= 6 && f.password != f.passwordConfirm
  {
    if f.email == "" || f.username == "" || f.password == "" || f.passwordConfirm == "" then Some(MissingField)
    else if |f.username| < 3 then Some(ShortUsername)
    else if |f.password| < 6 then Some(ShortPassword)
    else if f.password != f.passwordConfirm then Some(PasswordsDiffer)
    else None
  }

  /** `handleSubmit`: the sign-up call is made with the form's four values exactly when
      the form passes; otherwise the first failure's message is shown. */
  method HandleSubmit(f: SignupForm) returns (call: Option<SignupForm>, shown: Option<string>)
    ensures call.Some? <==> ValidateForm(f).None?
    ensures call.Some? ==> call.value == f && shown.None?
    ensures call.None? ==> shown == Some(FormErrorText(ValidateForm(f).value))
  {
    var failure := ValidateForm(f);
    if failure.Some? {
      return None, Some(FormErrorText(failure.value));
    }
    call, shown := Some(f), None;
  }

  /** A value of the error body: a list of messages, one message, or anything else. */
  datatype ErrorValue = Messages(items: seq<string>) | Message(text: string) | OtherValue

  /** The messages collected from the error body, key by key. */
  function Flattened(data: seq<(string, ErrorValue)>): seq<string> {
    if data == [] then []
    else
      var rest := Flattened(data[..|data| - 1]);
      match data[|data| - 1].1
      case Messages(items) => rest + items
      case Message(text) => rest + [text]
      case OtherValue => rest
  }

  /** The loop over the error body's keys that pushes every list element and every
      string into `messages`. */
  method CollectMessages(data: seq<(string, ErrorValue)>) returns (messages: seq<string>)
    ensures messages == Flattened(data)
  {
    messages := [];
    for i := 0 to |data|
      invariant messages == Flattened(data[..i])
    {
      assert data[..i + 1][..i] == data[..i];
      match data[i].1
      case Messages(items) => messages := messages + items;
      case Message(text) => messages := messages + [text];
      case OtherValue =>
    }
    assert data[..|data|] == data;
  }

  const SignupFallback := "Signup failed. Please try again."

  /** The toast after a refused sign-up: the first collected message, or the fallback
      when there is no body, no message, or an empty first message. */
  function ShownError(data: Option<seq<(string, ErrorValue)>>): (m: string)
    ensures data.None? ==> m == SignupFallback
    ensures data.Some? && Flattened(data.value) != [] && Flattened(data.value)[0] != "" ==> m == Flattened(data.value)[0]
    ensures m != ""
  {
    if data.Some? && Flattened(data.value) != [] && Flattened(data.value)[0] != "" then Flattened(data.value)[0]
    else SignupFallback
  }

  /** Collecting two parts of a body one after the other. */
  lemma {:induction false} FlattenedAppend(a: seq<(string, ErrorValue)>, b: seq<(string, ErrorValue)>)
    ensures Flattened(a + b) == Flattened(a) + Flattened(b)
  {
    if b == [] {
      assert a + b == a;
    } else {
      assert (a + b)[..|a + b| - 1] == a + b[..|b| - 1];
      FlattenedAppend(a, b[..|b| - 1]);
    }
  }

  /** The message shown comes from the first key that holds one: keys before it hold
      no message at all. */
  lemma FirstKeyWins(before: seq<(string, ErrorValue)>, key: string, first: string,
                     after: seq<(string, ErrorValue)>, more: seq<string>)
    requires Flattened(before) == [] && first != ""
    ensures ShownError(Some(before + [(key, Messages([first] + more))] + after)) == first
    ensures ShownError(Some(before + [(key, Message(first))] + after)) == first
  {
    FlattenedAppend(before + [(key, Messages([first] + more))], after);
    FlattenedAppend(before, [(key, Messages([first] + more))]);
    FlattenedAppend(before + [(key, Message(first))], after);
    FlattenedAppend(before, [(key, Message(first))]);
    assert Flattened([(key, Messages([first] + more))]) == [first] + more by {
      assert [(key, Messages([first] + more))][..0] == [];
    }
    assert Flattened([(key, Message(first))]) == [first] by {
      assert [(key, Message(first))][..0] == [];
    }
  }
}
