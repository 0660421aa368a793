/** The author string of the manifest: `discover_author`'s fallback chain and the
    match in `mk` that combines it with the configured name and email. */
module Author {
  import opened Common

  /** `char::is_whitespace`: the Unicode White_Space characters. */
  predicate IsWhitespace(c: char) {
    || '\t' <= c <= '\r'
    || c == ' '
    || c == '\U{85}'
    || c == '\U{A0}'
    || c == '\U{1680}'
    || '\U{2000}' <= c <= '\U{200A}'
    || c == '\U{2028}'
    || c == '\U{2029}'
    || c == '\U{202F}'
    || c == '\U{205F}'
    || c == '\U{3000}'
  }

  /** The number of whitespace characters `s` starts with. */
  function LeadingSpace(s: string): (n: nat)
    ensures n <= |s|
    ensures forall k | 0 <= k < n :: IsWhitespace(s[k])
    ensures n < |s| ==> !IsWhitespace(s[n])
  {
    if s != [] && IsWhitespace(s[0]) then 1 + LeadingSpace(s[1..]) else 0
  }

  /** The number of whitespace characters `s` ends with. */
  function TrailingSpace(s: string): (n: nat)
    ensures n <= |s|
    ensures forall k | |s| - n <= k < |s| :: IsWhitespace(s[k])
    ensures n < |s| ==> !IsWhitespace(s[|s| - n - 1])
  {
    if s != [] && IsWhitespace(s[|s| - 1]) then 1 + TrailingSpace(s[..|s| - 1]) else 0
  }

  /** `str::trim`: the slice of `s` between its leading and its trailing
      whitespace; empty when `s` is whitespace only. */
  function Trim(s: string): (r: string)
    ensures var i := LeadingSpace(s);
      && i + |r| <= |s| && r == s[i..i + |r|]
      && (forall k | 0 <= k < i :: IsWhitespace(s[k]))
      && (forall k | i + |r| <= k < |s| :: IsWhitespace(s[k]))
    ensures r != [] ==> !IsWhitespace(r[0]) && !IsWhitespace(r[|r| - 1])
  {
    var i := LeadingSpace(s);
    if i == |s| then "" else s[i..|s| - TrailingSpace(s)]
  }

  /** Trimming a trimmed string changes nothing. */
  lemma TrimIdempotent(s: string)
    ensures Trim(Trim(s)) == Trim(s)
  {
    var t := Trim(s);
    if t != [] {
      assert LeadingSpace(t) == 0;
      assert TrailingSpace(t) == 0;
      assert t[0..|t|] == t;
    }
  }

  /** What `discover_author` reads from outside: the git configuration's
      `user.name` / `user.email`, the `USER`, `USERNAME` and `EMAIL` variables, and
      whether the platform is Windows (which decides the variable the error names). */
  datatype Identity = Identity(
    gitName: Option<string>,
    gitEmail: Option<string>,
    user: Option<string>,
    username: Option<string>,
    email: Option<string>,
    onWindows: bool)

  function FirstSome(a: Option<string>, b: Option<string>): Option<string> {
    if a.Some? then a else b
  }

  /** `discover_author`: the name falls back from git's `user.name` to `USER` to
      `USERNAME`; with none of them it fails naming the variable to set. The email
      falls back from git's `user.email` to `EMAIL`. Both are trimmed. */
  function DiscoverAuthor(id: Identity): (r: Result<(string, Option<string>)>)
    ensures r.Err? <==> id.gitName.None? && id.user.None? && id.username.None?
    ensures r.Err? ==> r.error == UnknownUser(if id.onWindows then "USERNAME" else "USER")
    ensures r.Ok? ==> r.value.0 == Trim(FirstSome(id.gitName, FirstSome(id.user, id.username)).value)
    ensures r.Ok? ==> (r.value.1.Some? <==> id.gitEmail.Some? || id.email.Some?)
    ensures r.Ok? && r.value.1.Some? ==> r.value.1.value == Trim(FirstSome(id.gitEmail, id.email).value)
  {
    var name :=
      if id.gitName.Some? then id.gitName
      else if id.user.Some? then id.user
      else id.username;
    match name
    case None =>
      var usernameVar := if id.onWindows then "USERNAME" else "USER";
      Err(UnknownUser(usernameVar))
    case Some(n) =>
      var email := if id.gitEmail.Some? then id.gitEmail else id.email;
      Ok((Trim(n), if email.Some? then Some(Trim(email.value)) else None))
  }

  /** The author match in `mk`: the configured name and email each take priority
      over the discovered ones; with some email the author is `name <email>`,
      otherwise the bare name. */
  function ComposeAuthor(cfgName: Option<string>, cfgEmail: Option<string>,
                         name: string, email: Option<string>): (r: string)
    ensures var who := cfgName.GetOr(name);
      var mail := FirstSome(cfgEmail, email);
      r == if mail.Some? then who + " <" + mail.value + ">" else who
  {
    match (cfgName, cfgEmail, name, email)
    case (Some(n), Some(e), _, _) => n + " <" + e + ">"
    case (Some(n), None, _, Some(e)) => n + " <" + e + ">"
    case (None, Some(e), n, _) => n + " <" + e + ">"
    case (None, None, n, Some(e)) => n + " <" + e + ">"
    case (Some(n), None, _, None) => n
    case (None, None, n, None) => n
  }

  /** The author string contains the email in angle brackets exactly when some
      email is known, configured or discovered. */
  lemma AuthorHasEmailIffSomeEmail(cfgName: Option<string>, cfgEmail: Option<string>,
                                   name: string, email: Option<string>)
    requires forall k | 0 <= k < |cfgName.GetOr(name)| :: cfgName.GetOr(name)[k] != '<'
    ensures (exists k | 0 <= k < |ComposeAuthor(cfgName, cfgEmail, name, email)| ::
               ComposeAuthor(cfgName, cfgEmail, name, email)[k] == '<')
            <==> cfgEmail.Some? || email.Some?
  {
    var r := ComposeAuthor(cfgName, cfgEmail, name, email);
    var who := cfgName.GetOr(name);
    if cfgEmail.Some? || email.Some? {
      assert r[|who| + 1] == '<';
    }
  }
}
