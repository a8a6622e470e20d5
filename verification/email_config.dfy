/**
 * The SMTP configuration classifier of `lib/email-config.ts`: the trimmed
 * `EMAIL_SERVER` value becomes nothing, a connection URL, or SendGrid
 * transport options. The environment value is a parameter (`None` when unset).
 */
module EmailConfig {
  import opened Wrappers
  import opened Text

  const SendGridHost: string := "smtp.sendgrid.net"
  const SendGridPort: int := 587

  /** What `resolveEmailServer` hands to the mail transport. */
  datatype EmailServer =
    | Url(url: string)
    | Options(host: string, port: int, secure: bool, user: string, pass: string)

  /** `looksLikeSendGridKey`: an API key starts with "SG.". */
  predicate LooksLikeSendGridKey(value: string) {
    StartsWith(value, "SG.")
  }

  /** `looksLikeBareSmtp`: credentials and a host with no scheme, such as `user:pass@host`. */
  predicate LooksLikeBareSmtp(value: string) {
    '@' in value && ':' in value && !StartsWith(value, "smtp")
  }

  predicate HasSmtpScheme(value: string) {
    StartsWith(value, "smtp://") || StartsWith(value, "smtps://")
  }

  /** `resolveEmailServer` with the environment value passed in. */
  function ResolveEmailServer(env: Option<string>): (r: Option<EmailServer>)
    ensures r.None? <==> env.None? || AllSpace(env.value)
    ensures r.Some? && LooksLikeBareSmtp(Trim(env.value)) ==> r.value == Url("smtp://" + Trim(env.value))
    ensures r.Some? && !LooksLikeBareSmtp(Trim(env.value)) && HasSmtpScheme(Trim(env.value)) ==> r.value == Url(Trim(env.value))
    ensures r.Some? && !LooksLikeBareSmtp(Trim(env.value)) && !HasSmtpScheme(Trim(env.value)) && LooksLikeSendGridKey(Trim(env.value)) ==>
              r.value == Options(SendGridHost, SendGridPort, false, "apikey", Trim(env.value))
    ensures r.Some? && !LooksLikeBareSmtp(Trim(env.value)) && !HasSmtpScheme(Trim(env.value)) && !LooksLikeSendGridKey(Trim(env.value)) ==>
              r.value == Url(Trim(env.value))
  {
    match env
    case None => None
    case Some(value) =>
      var raw := Trim(value);
      TrimEmptyIffBlank(value);
      if raw == [] then None
      else if LooksLikeBareSmtp(raw) then Some(Url("smtp://" + raw))
      else if HasSmtpScheme(raw) then Some(Url(raw))
      else if LooksLikeSendGridKey(raw) then Some(Options(SendGridHost, SendGridPort, false, "apikey", raw))
      else Some(Url(raw))
  }

  /** `trim()` leaves nothing exactly when the value is all whitespace. */
  lemma TrimEmptyIffBlank(s: string)
    ensures Trim(s) == [] <==> AllSpace(s)
  {
    var t := TrimStart(s);
    if Trim(s) == [] {
      assert TrimEnd(t) == [];
      assert AllSpace(t[0..]);
      forall i | 0 <= i < |s|
        ensures IsSpace(s[i])
      {
        if i < |s| - |t| {
          assert s[..|s| - |t|][i] == s[i];
        }
      }
    }
  }

  /** A prefixed URL keeps the scheme, so it is neither bare nor re-prefixed. */
  lemma PrefixedIsSchemed(raw: string)
    requires raw != [] && IsTrimmed(raw)
    ensures var u := "smtp://" + raw;
            IsTrimmed(u) && !LooksLikeBareSmtp(u) && HasSmtpScheme(u)
  {
    var u := "smtp://" + raw;
    assert u[..4] == "smtp" && u[..7] == "smtp://";
    assert u[|u| - 1] == raw[|raw| - 1];
  }

  /** Every URL the classifier returns is a fixed point: resolving it again gives it back. */
  lemma ResolvedUrlIsStable(env: Option<string>)
    requires ResolveEmailServer(env).Some? && ResolveEmailServer(env).value.Url?
    ensures var u := ResolveEmailServer(env).value.url;
            ResolveEmailServer(Some(u)) == Some(Url(u))
  {
    var raw := Trim(env.value);
    TrimEmptyIffBlank(env.value);
    if LooksLikeBareSmtp(raw) {
      PrefixedIsSchemed(raw);
      UrlFixedPoint("smtp://" + raw);
    } else {
      UrlFixedPoint(raw);
    }
  }

  /** A trimmed value that is not bare and either has a scheme or is no SendGrid key resolves to itself. */
  lemma UrlFixedPoint(u: string)
    requires u != [] && IsTrimmed(u) && !LooksLikeBareSmtp(u)
    requires HasSmtpScheme(u) || !LooksLikeSendGridKey(u)
    ensures ResolveEmailServer(Some(u)) == Some(Url(u))
  {
    TrimOfTrimmed(u);
  }

  /** Bare credentials win over the SendGrid test: an "SG." value holding '@' and ':' becomes a URL. */
  lemma BareCheckComesFirst(value: string)
    requires IsTrimmed(value) && LooksLikeSendGridKey(value) && '@' in value && ':' in value
    ensures ResolveEmailServer(Some(value)) == Some(Url("smtp://" + value))
  {
    assert value[0] == 'S';
    assert !StartsWith(value, "smtp");
    TrimOfTrimmed(value);
  }
}
