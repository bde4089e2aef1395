/** Google's SASL XOAUTH2 mechanism for IMAP and SMTP: the initial client
    response `user=<name>^Aauth=Bearer <token>^A^A` in the standard base 64
    of section 4 of RFC 4648, and the checks on the server's answer. Every
    failure, the token provider's included, surfaces as an `AuthError`, here
    `Err` with the error's message. */
module OAuth2 {
  import opened Wrappers
  import Base64
  import Text

  /** The XOAUTH2 initial response before encoding. */
  function Payload(username: string, token: string): string {
    "user=" + username + "\U{1}auth=Bearer " + token + "\U{1}\U{1}"
  }

  /** `_xoauth2_string`: the payload's UTF-8 bytes in standard base 64. */
  function XOAuth2String(username: string, token: string): (r: string)
    ensures Base64.Decode(r, false) == Some(Base64.Utf8(Payload(username, token)))
    ensures |r| % 4 == 0
    ensures forall i :: 0 <= i < |r| ==> r[i] == '=' || Base64.InAlphabet(r[i], false)
    ensures forall i :: 0 <= i < |r| && r[i] == '=' ==> i >= |r| - 2
  {
    var b := Base64.Utf8(Payload(username, token));
    Base64.DecodeEncode(b, false);
    Base64.EncodeShape(b, false);
    Base64.EncodeGroups(b, false);
    Base64.Encode(b, false)
  }

  const ImapFailure := "IMAP XOAUTH2 auth failed: "
  const SmtpFailure := "SMTP XOAUTH2 auth failed: "

  /** `apply_imap`. `token` is the token provider's result and `authenticate`
      stands for `conn.authenticate("XOAUTH2", auth_cb)`: it receives what the
      callback returns and gives the response type, or the message of what it
      raised. The non-OK error is raised inside the `try` and wrapped again. */
  function ApplyImap(username: string, token: Result<string, string>,
                     authenticate: string -> Result<string, string>): (r: Result<(), string>)
    ensures r.Ok? <==> token.Ok? && authenticate(XOAuth2String(username, token.value)) == Ok("OK")
    ensures r.Err? ==> |ImapFailure| <= |r.error| && r.error[..|ImapFailure|] == ImapFailure
  {
    if token.Err? then Err(ImapFailure + token.error)
    else
      var reply := authenticate(XOAuth2String(username, token.value));
      if reply.Err? then Err(ImapFailure + reply.error)
      else if reply.value != "OK" then Err(ImapFailure + "IMAP XOAUTH2 auth failed (non-OK response)")
      else Ok(())
  }

  /** `apply_smtp`. `docmd` stands for `server.docmd("AUTH", arg)`: it gives
      the reply code and text, or the message of what it raised. */
  function ApplySmtp(username: string, token: Result<string, string>,
                     docmd: string -> Result<(int, string), string>): (r: Result<(), string>)
    ensures r.Ok? <==> token.Ok? && docmd("XOAUTH2 " + XOAuth2String(username, token.value)).Ok?
                       && docmd("XOAUTH2 " + XOAuth2String(username, token.value)).value.0 == 235
    ensures r.Err? ==> |SmtpFailure| <= |r.error| && r.error[..|SmtpFailure|] == SmtpFailure
  {
    if token.Err? then Err(SmtpFailure + token.error)
    else
      var reply := docmd("XOAUTH2 " + XOAuth2String(username, token.value));
      if reply.Err? then Err(SmtpFailure + reply.error)
      else if reply.value.0 != 235 then
        Err(SmtpFailure + SmtpFailure + Text.IntToString(reply.value.0) + " " + reply.value.1)
      else Ok(())
  }

  /** The SMTP argument is the mechanism name and the encoded payload, which
      decodes to exactly the XOAUTH2 initial response. */
  lemma SmtpInitialResponse(username: string, token: string)
    ensures var arg := "XOAUTH2 " + XOAuth2String(username, token);
            arg[..8] == "XOAUTH2 " &&
            Base64.Decode(arg[8..], false) == Some(Base64.Utf8(Payload(username, token)))
  {
    var arg := "XOAUTH2 " + XOAuth2String(username, token);
    assert arg[8..] == XOAuth2String(username, token);
  }

  // ---------------------------------------------------------------------
  // What reaches the IMAP server
  // ---------------------------------------------------------------------

  /** `imaplib`'s authenticator base 64-encodes (standard alphabet, no line
      breaks) whatever the `authenticate` callback returns before sending it. */
  function ImapWire(callbackResult: string): string {
    Base64.Encode(Base64.Utf8(callbackResult), false)
  }

  /** What the server gets after its one base 64 decoding step. */
  function ServerDecoded(wire: string): Option<seq<Base64.Byte>> {
    Base64.Decode(wire, false)
  }

  /** As written, the callback returns the already encoded string, so the
      server decodes it once to the encoded text, whose first byte is `d`,
      never to the `user=` payload. */
  lemma ImapAsWrittenSendsEncodedTwice(username: string, token: string)
    ensures ServerDecoded(ImapWire(XOAuth2String(username, token))).Some?
    ensures ServerDecoded(ImapWire(XOAuth2String(username, token))).value[0] == 'd' as int
    ensures Base64.Utf8(Payload(username, token))[0] == 'u' as int
    ensures ServerDecoded(ImapWire(XOAuth2String(username, token))) != Some(Base64.Utf8(Payload(username, token)))
  {
    var p := Payload(username, token);
    var b := Base64.Utf8(p);
    Base64.Utf8Append(p[..3], p[3..]);
    assert p == p[..3] + p[3..];
    Base64.Utf8Ascii(p[..3]);
    assert b[0] == 'u' as int && b[1] == 's' as int && b[2] == 'e' as int;
    var s := XOAuth2String(username, token);
    assert s[0] == Base64.Sextet(b[0] / 4, false);
    assert s[0] == 'd';
    Base64.Utf8Append(s[..1], s[1..]);
    assert s == s[..1] + s[1..];
    Base64.Utf8Ascii(s[..1]);
    Base64.DecodeEncode(Base64.Utf8(s), false);
  }

  /** The callback `imaplib` expects returns the payload itself; the server then
      decodes exactly the XOAUTH2 initial response. */
  function ImapCallbackCorrected(username: string, token: string): (r: string)
    ensures ServerDecoded(ImapWire(r)) == Some(Base64.Utf8(Payload(username, token)))
  {
    Base64.DecodeEncode(Base64.Utf8(Payload(username, token)), false);
    Payload(username, token)
  }
}
