/** The login rule applied when the operator types a login: the typed text is
    trimmed, and the configured short alias is appended unless the login
    already names a domain with '@'. */
module Login {
  import opened Text

  /** The suffix appended to a bare login, as configured. */
  const ShortAlias: string := "SHORT_ALIAS"

  /** Appends `alias` to `login` unless `login` contains '@'. */
  function WithAlias(login: string, alias: string): (full: string)
    ensures login <= full
    ensures ('@' in full) <==> ('@' in login || '@' in alias)
    ensures full == login <==> ('@' in login || alias == "")
  {
    if '@' in login then login else login + alias
  }

  /** The login sent for the line `typed`, with `alias` as the short alias:
      the trimmed text, completed by the alias when it names no domain. */
  function LoginFor(typed: string, alias: string): (login: string)
    ensures TrimSpace(typed) <= login
    ensures '@' in alias ==> '@' in login
  {
    WithAlias(TrimSpace(typed), alias)
  }

  /** The login used to connect, from the line the operator typed. */
  function EnteredLogin(typed: string): (login: string)
    ensures TrimSpace(typed) <= login
  {
    LoginFor(typed, ShortAlias)
  }

  /** When the alias itself holds a domain, applying the rule a second time
      changes nothing. */
  lemma AliasIdempotent(login: string, alias: string)
    requires '@' in alias
    ensures WithAlias(WithAlias(login, alias), alias) == WithAlias(login, alias)
  {
  }

  /** A login typed without a domain is sent as the trimmed text followed by
      the alias; a login typed with one is sent as typed, trimmed. */
  lemma BareLoginGetsAlias(typed: string, alias: string)
    ensures '@' !in TrimSpace(typed) ==> LoginFor(typed, alias) == TrimSpace(typed) + alias
    ensures '@' in TrimSpace(typed) ==> LoginFor(typed, alias) == TrimSpace(typed)
  {
  }

  /** With an alias that names a domain and has no white space at its ends,
      typing the login that was sent gives the same login again. */
  lemma LoginForIdempotent(typed: string, alias: string)
    requires '@' in alias && !IsSpace(alias[0]) && !IsSpace(alias[|alias| - 1])
    ensures LoginFor(LoginFor(typed, alias), alias) == LoginFor(typed, alias)
  {
    var t := TrimSpace(typed);
    var login := LoginFor(typed, alias);
    TrimSpaceEnds(typed);
    if '@' in t {
      TrimmedIsFixed(t);
    } else {
      assert login == t + alias;
      assert login[|login| - 1] == alias[|alias| - 1];
      if t != [] {
        assert login[0] == t[0];
      } else {
        assert login == alias;
      }
      TrimmedIsFixed(login);
    }
  }
}
