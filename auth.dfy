/** The authentication manager: static credentials plus a per-connection failure counter that,
    once it reaches the configured threshold, lets the next attempt in with any credentials. */
module Auth {
  import opened Wrappers

  datatype Credential = Credential(username: string, password: string)

  /** The result of one `validate` call: the answer and the failure counters afterwards. */
  datatype Verdict = Verdict(accepted: bool, failures: map<string, nat>)

  /** One login attempt: a username and a password. */
  datatype Attempt = Attempt(username: string, password: string)

  /** `dict.get(connection_id, 0)`. */
  function FailureCount(failures: map<string, nat>, connectionId: string): nat {
    if connectionId in failures then failures[connectionId] else 0
  }

  /** The dict comprehension `{c.username: c.password for c in creds}` run on top of `acc`:
      credentials are inserted left to right, a later one overwriting an earlier one. */
  function InsertCredentials(acc: map<string, string>, creds: seq<Credential>): map<string, string>
    decreases |creds|
  {
    if creds == [] then acc
    else InsertCredentials(acc[creds[0].username := creds[0].password], creds[1..])
  }

  function CredentialMap(creds: seq<Credential>): map<string, string> {
    InsertCredentials(map[], creds)
  }

  /** Reference reading of a credential list: the password of the LAST entry for `username`. */
  function LastPassword(creds: seq<Credential>, username: string): Option<string>
  {
    if creds == [] then None
    else if creds[|creds| - 1].username == username then Some(creds[|creds| - 1].password)
    else LastPassword(creds[..|creds| - 1], username)
  }

  lemma {:induction false} InsertLast(acc: map<string, string>, creds: seq<Credential>, c: Credential)
    ensures InsertCredentials(acc, creds + [c]) == InsertCredentials(acc, creds)[c.username := c.password]
    decreases |creds|
  {
    if creds == [] {
      assert creds + [c] == [c];
      assert ([c])[1..] == [];
    } else {
      assert (creds + [c])[0] == creds[0];
      assert (creds + [c])[1..] == creds[1..] + [c];
      InsertLast(acc[creds[0].username := creds[0].password], creds[1..], c);
    }
  }

  /** With duplicate usernames in the configuration, the last password wins: a username is known
      exactly when some entry names it, and its password is that of its last entry. */
  lemma {:induction false} CredentialMapLastWins(creds: seq<Credential>, username: string)
    ensures username in CredentialMap(creds) <==> LastPassword(creds, username).Some?
    ensures username in CredentialMap(creds) ==>
              CredentialMap(creds)[username] == LastPassword(creds, username).value
    decreases |creds|
  {
    if creds != [] {
      var init, last := creds[..|creds| - 1], creds[|creds| - 1];
      assert creds == init + [last];
      InsertLast(map[], init, last);
      CredentialMapLastWins(init, username);
    }
  }

  /** `_should_accept_all`: accept-all is on for a connection once its failures reach a positive
      threshold; a threshold of 0 switches it off. */
  predicate AcceptAllActive(threshold: nat, failures: map<string, nat>, connectionId: string)
  {
    if threshold == 0 then false else FailureCount(failures, connectionId) >= threshold
  }

  /** `validate`: accept-all first, then the static credentials; a success clears the
      connection's counter, a failure adds one to it. No other connection is touched. */
  function Decide(threshold: nat, credentials: map<string, string>, failures: map<string, nat>,
                  connectionId: string, attempt: Attempt): (v: Verdict)
    ensures v.accepted <==>
              AcceptAllActive(threshold, failures, connectionId)
              || (attempt.username in credentials && credentials[attempt.username] == attempt.password)
    ensures v.accepted ==> connectionId !in v.failures
    ensures !v.accepted ==> FailureCount(v.failures, connectionId) == FailureCount(failures, connectionId) + 1
    ensures forall other | other != connectionId :: FailureCount(v.failures, other) == FailureCount(failures, other)
    ensures v.failures.Keys - {connectionId} == failures.Keys - {connectionId}
  {
    if AcceptAllActive(threshold, failures, connectionId) then Verdict(true, failures - {connectionId})
    else if attempt.username in credentials && credentials[attempt.username] == attempt.password then
      Verdict(true, failures - {connectionId})
    else Verdict(false, failures[connectionId := FailureCount(failures, connectionId) + 1])
  }

  /** Several attempts on one connection, in order: the answers and the final counters. */
  function DecideAll(threshold: nat, credentials: map<string, string>, failures: map<string, nat>,
                     connectionId: string, attempts: seq<Attempt>): (r: (seq<bool>, map<string, nat>))
    ensures |r.0| == |attempts|
    decreases |attempts|
  {
    if attempts == [] then ([], failures)
    else
      var v := Decide(threshold, credentials, failures, connectionId, attempts[0]);
      var rest := DecideAll(threshold, credentials, v.failures, connectionId, attempts[1..]);
      ([v.accepted] + rest.0, rest.1)
  }

  predicate WrongFor(credentials: map<string, string>, a: Attempt) {
    a.username !in credentials || credentials[a.username] != a.password
  }

  /** Below the threshold, wrong credentials are refused one by one and each adds exactly one
      failure. */
  lemma {:induction false} FailuresAccumulate(threshold: nat, credentials: map<string, string>,
                                              failures: map<string, nat>, connectionId: string,
                                              attempts: seq<Attempt>)
    requires threshold == 0 || FailureCount(failures, connectionId) + |attempts| <= threshold
    requires forall i | 0 <= i < |attempts| :: WrongFor(credentials, attempts[i])
    ensures var r := DecideAll(threshold, credentials, failures, connectionId, attempts);
            (forall i | 0 <= i < |attempts| :: !r.0[i])
            && FailureCount(r.1, connectionId) == FailureCount(failures, connectionId) + |attempts|
    decreases |attempts|
  {
    if attempts != [] {
      var v := Decide(threshold, credentials, failures, connectionId, attempts[0]);
      FailuresAccumulate(threshold, credentials, v.failures, connectionId, attempts[1..]);
    }
  }

  /** The brute-force run: from a fresh counter, N wrong attempts are refused, the next attempt is
      accepted whatever its credentials, and the counter is gone so counting restarts from zero. */
  lemma ThresholdRun(threshold: nat, credentials: map<string, string>, failures: map<string, nat>,
                     connectionId: string, wrong: seq<Attempt>, any: Attempt)
    requires threshold > 0 && |wrong| == threshold && connectionId !in failures
    requires forall i | 0 <= i < |wrong| :: WrongFor(credentials, wrong[i])
    ensures var r := DecideAll(threshold, credentials, failures, connectionId, wrong + [any]);
            (forall i | 0 <= i < threshold :: !r.0[i]) && r.0[threshold]
            && connectionId !in r.1
  {
    FailuresAccumulate(threshold, credentials, failures, connectionId, wrong);
    DecideAllSplit(threshold, credentials, failures, connectionId, wrong, [any]);
  }

  lemma {:induction false} DecideAllSplit(threshold: nat, credentials: map<string, string>,
                                          failures: map<string, nat>, connectionId: string,
                                          xs: seq<Attempt>, ys: seq<Attempt>)
    ensures var a := DecideAll(threshold, credentials, failures, connectionId, xs);
            var b := DecideAll(threshold, credentials, a.1, connectionId, ys);
            DecideAll(threshold, credentials, failures, connectionId, xs + ys) == (a.0 + b.0, b.1)
    decreases |xs|
  {
    if xs == [] {
      assert xs + ys == ys;
      var b := DecideAll(threshold, credentials, failures, connectionId, ys);
      assert [] + b.0 == b.0;
    } else {
      assert (xs + ys)[0] == xs[0] && (xs + ys)[1..] == xs[1..] + ys;
      var v := Decide(threshold, credentials, failures, connectionId, xs[0]);
      DecideAllSplit(threshold, credentials, v.failures, connectionId, xs[1..], ys);
      var rest := DecideAll(threshold, credentials, v.failures, connectionId, xs[1..]);
      var b := DecideAll(threshold, credentials, rest.1, connectionId, ys);
      assert [v.accepted] + (rest.0 + b.0) == ([v.accepted] + rest.0) + b.0;
    }
  }

  /** With the threshold at 0 no number of failures opens accept-all: every attempt is judged on
      its credentials alone. */
  lemma {:induction false} DisabledNeverAcceptsAll(credentials: map<string, string>, failures: map<string, nat>,
                                                   connectionId: string, attempts: seq<Attempt>)
    requires forall i | 0 <= i < |attempts| :: WrongFor(credentials, attempts[i])
    ensures var r := DecideAll(0, credentials, failures, connectionId, attempts);
            forall i | 0 <= i < |attempts| :: !r.0[i]
  {
    FailuresAccumulate(0, credentials, failures, connectionId, attempts);
  }

  class AuthenticationManager {
    const threshold: nat
    const credentials: map<string, string>
    var failedAttempts: map<string, nat>

    /** Builds the credential lookup from the configured list; no connection has failed yet. */
    constructor (staticCredentials: seq<Credential>, acceptAllAfterFailures: nat)
      ensures threshold == acceptAllAfterFailures
      ensures credentials == CredentialMap(staticCredentials)
      ensures failedAttempts == map[]
    {
      threshold := acceptAllAfterFailures;
      credentials := CredentialMap(staticCredentials);
      failedAttempts := map[];
    }

    method Validate(connectionId: string, username: string, password: string) returns (ok: bool)
      modifies this
      ensures Verdict(ok, failedAttempts) ==
                Decide(threshold, credentials, old(failedAttempts), connectionId, Attempt(username, password))
    {
      if AcceptAllActive(threshold, failedAttempts, connectionId) {
        ResetFailures(connectionId);
        return true;
      }
      if username in credentials {
        if credentials[username] == password {
          ResetFailures(connectionId);
          return true;
        }
      }
      IncrementFailures(connectionId);
      return false;
    }

    method IncrementFailures(connectionId: string)
      modifies this
      ensures failedAttempts == old(failedAttempts)[connectionId := FailureCount(old(failedAttempts), connectionId) + 1]
    {
      failedAttempts := failedAttempts[connectionId := FailureCount(failedAttempts, connectionId) + 1];
    }

    method ResetFailures(connectionId: string)
      modifies this
      ensures failedAttempts == old(failedAttempts) - {connectionId}
    {
      if connectionId in failedAttempts {
        failedAttempts := failedAttempts - {connectionId};
      }
    }

    /** Forgets a disconnected connection; an unknown id changes nothing. */
    method CleanupConnection(connectionId: string)
      modifies this
      ensures failedAttempts == old(failedAttempts) - {connectionId}
      ensures connectionId !in old(failedAttempts) ==> failedAttempts == old(failedAttempts)
    {
      ResetFailures(connectionId);
    }
  }

  /** The documented brute-force scenario on a fresh manager with root/toor and threshold 3. */
  method BruteForceScenario() returns (answers: seq<bool>)
    ensures answers == [false, false, false, true, false]
  {
    var auth := new AuthenticationManager([Credential("root", "toor")], 3);
    var a1 := auth.Validate("attacker-1", "root", "root");
    var a2 := auth.Validate("attacker-1", "root", "password");
    var a3 := auth.Validate("attacker-1", "root", "123456");
    var a4 := auth.Validate("attacker-1", "root", "anything");
    var a5 := auth.Validate("attacker-1", "root", "wrong");
    answers := [a1, a2, a3, a4, a5];
  }
}
