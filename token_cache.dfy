/**
 * The credential pre-check and the bearer-token cache of proxytool3.py.
 *
 * The token lives in one file. Its age in whole seconds comes from the file's
 * modification time; the run reuses the cached body only while that age is
 * strictly below the configured maximum, and otherwise exchanges the client
 * credentials for a new token and overwrites the file with it.
 */
module TokenCache {
  import opened Wrappers

  /** The token file as the run finds it: absent, or holding a token body of a given age. */
  datatype TokenFile = Absent | Present(contents: string, age: int)

  /** The access_token field of the reply: absent, a string, or a JSON value of another type (null, a number, ...). */
  datatype TokenField = Missing | Text(text: string) | NotText

  /**
   * The decoded reply of the identity endpoint. A field the body does not carry
   * (or a body that is not a JSON object) is Missing or None.
   */
  datatype TokenReply = TokenReply(accessToken: TokenField, expiresIn: Option<int>)

  /** One access to the token file or to the identity endpoint. */
  datatype TokenAccess =
    | CheckFile                                       // existence test, then the modification time
    | ReadFile                                        // reading the cached token body
    | Exchange(clientId: string, clientSecret: string) // the form-encoded credential exchange
    | WriteFile(token: string)                        // overwriting the file with a new body
    | TruncateFile                                    // opening the file for writing, with the write then failing

  /** How the run came by its bearer token, or that it could not. */
  datatype Acquired = Reused(token: string) | Issued(token: string) | ExchangeFailed

  /** The run goes on only when both the client id and the client secret are set. */
  predicate CredentialsConfigured(clientId: string, clientSecret: string) {
    clientId != "" && clientSecret != ""
  }

  /** The freshness test over (file exists, its age, the maximum age). */
  predicate Reusable(found: bool, delta: int, maxDuration: int) {
    found && delta < maxDuration
  }

  predicate Fresh(file: TokenFile, maxDuration: int) {
    Reusable(file.Present?, if file.Present? then file.age else 0, maxDuration)
  }

  /** The reply yields a token only if both fields the run reads are there. */
  predicate Granted(reply: TokenReply) {
    reply.accessToken.Text? && reply.expiresIn.Some?
  }

  /**
   * Both fields are there but the token is not a string: the file is opened
   * for writing, which empties it, and writing the token then raises.
   */
  predicate Malformed(reply: TokenReply) {
    reply.accessToken.NotText? && reply.expiresIn.Some?
  }

  /**
   * The age of the file as the run computes it: the current time, already cut
   * to whole seconds, minus the (fractional) modification time, converted
   * with int(), which truncates toward zero.
   */
  function TruncatedAge(now: int, modified: real): (delta: int)
    ensures now as real >= modified ==> 0 <= delta && delta as real <= now as real - modified < delta as real + 1.0
    ensures now as real < modified ==> delta <= 0 && delta as real - 1.0 < now as real - modified <= delta as real
  {
    var d := now as real - modified;
    if d >= 0.0 then d.Floor else -((-d).Floor)
  }

  /**
   * The token block of the run: reuse the cached token when it is fresh,
   * otherwise exchange the credentials and overwrite the file with the new
   * token. Returns the outcome, the token file afterwards and the accesses
   * made, in order.
   */
  method AcquireToken(file: TokenFile, maxDuration: int, clientId: string, clientSecret: string, reply: TokenReply)
    returns (acquired: Acquired, file': TokenFile, accesses: seq<TokenAccess>)
    ensures acquired.Reused? <==> Fresh(file, maxDuration)
    ensures Fresh(file, maxDuration) ==>
      acquired == Reused(file.contents) && file' == file && accesses == [CheckFile, ReadFile]
    ensures !Fresh(file, maxDuration) && Granted(reply) ==>
      && acquired == Issued(reply.accessToken.text)
      && file' == Present(reply.accessToken.text, 0)
      && accesses == [CheckFile, Exchange(clientId, clientSecret), WriteFile(reply.accessToken.text)]
    ensures !Fresh(file, maxDuration) && Malformed(reply) ==>
      && acquired == ExchangeFailed
      && file' == Present("", 0)
      && accesses == [CheckFile, Exchange(clientId, clientSecret), TruncateFile]
    ensures !Fresh(file, maxDuration) && !Granted(reply) && !Malformed(reply) ==>
      acquired == ExchangeFailed && file' == file && accesses == [CheckFile, Exchange(clientId, clientSecret)]
  {
    accesses := [CheckFile];
    file' := file;
    var needsToken := false;
    var token := "";
    if file.Present? {
      if file.age < maxDuration {
        accesses := accesses + [ReadFile];
        token := file.contents;
      } else {
        needsToken := true;
      }
    } else {
      needsToken := true;
    }

    if needsToken {
      accesses := accesses + [Exchange(clientId, clientSecret)];
      if reply.accessToken.Missing? || reply.expiresIn.None? {
        // reading either field raises before the file is opened
        acquired := ExchangeFailed;
        return;
      }
      if reply.accessToken.NotText? {
        // opening for writing empties the file; writing a non-string raises
        file' := Present("", 0);
        accesses := accesses + [TruncateFile];
        acquired := ExchangeFailed;
        return;
      }
      token := reply.accessToken.text;
      file' := Present(token, 0);
      accesses := accesses + [WriteFile(token)];
      acquired := Issued(token);
    } else {
      acquired := Reused(token);
    }
  }

  /** A cached token is reused exactly while its age is below the maximum: one second more and it is replaced. */
  lemma FreshnessBoundary(contents: string, age: int, maxDuration: int)
    ensures Fresh(Present(contents, age), maxDuration) <==> age < maxDuration
    ensures !Fresh(Present(contents, maxDuration), maxDuration)
    ensures !Fresh(Absent, maxDuration)
  {
  }

  /** A file written less than a second before or after the current whole second counts as zero seconds old. */
  lemma SubSecondAgeIsZero(now: int, modified: real)
    requires now as real - 1.0 < modified < now as real + 1.0
    ensures TruncatedAge(now, modified) == 0
  {
  }
}
