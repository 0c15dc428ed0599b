/** The session bookkeeping of the SSH front end: what each connection's server object records
    about the client, what it asks the authentication manager, and what the backend hands to the
    session handler when a shell is opened. The SSH listener itself is not modelled. */
module SshBackend {
  import opened Wrappers
  import Auth
  import Terminal

  /** `SessionInfo`: one per connection. The server object and the backend's map hold the same
      instance, and the authentication callbacks update it in place. */
  class SessionInfo {
    const sessionId: string
    var username: string
    const sourceIp: string
    const sourcePort: int
    var authenticated: bool
    var failedAttempts: int

    constructor (sessionId: string, username: string, sourceIp: string, sourcePort: int)
      ensures this.sessionId == sessionId && this.username == username
      ensures this.sourceIp == sourceIp && this.sourcePort == sourcePort
      ensures !authenticated && failedAttempts == 0
    {
      this.sessionId := sessionId;
      this.username := username;
      this.sourceIp := sourceIp;
      this.sourcePort := sourcePort;
      authenticated := false;
      failedAttempts := 0;
    }
  }

  /** Where a client connects from, when the transport knows it: address and port. */
  datatype Peer = Peer(ip: string, port: int)

  /** The backend: the session information of every connection, kept in insertion order as a
      Python dict keeps it, whether a listener is up, and whether a session handler is
      registered. */
  class AsyncSshBackend {
    const auth: Auth.AuthenticationManager
    var listening: bool
    var hasHandler: bool
    var sessionInfoMap: map<string, SessionInfo>
    /** The keys of `sessionInfoMap` in the order they were first inserted. */
    var insertionOrder: seq<string>

    ghost predicate Valid()
      reads this
    {
      && (forall i, j | 0 <= i < j < |insertionOrder| :: insertionOrder[i] != insertionOrder[j])
      && (forall k :: k in insertionOrder <==> k in sessionInfoMap)
    }

    constructor (auth: Auth.AuthenticationManager)
      ensures Valid()
      ensures this.auth == auth && !listening && !hasHandler
      ensures sessionInfoMap == map[] && insertionOrder == []
    {
      this.auth := auth;
      listening := false;
      hasHandler := false;
      sessionInfoMap := map[];
      insertionOrder := [];
    }

    /** The value `list(values())[-1]` picks: the entry of the key inserted last. */
    function MostRecent(): (info: Option<SessionInfo>)
      requires Valid()
      reads this
      ensures info.None? <==> sessionInfoMap == map[]
      ensures info.Some? ==> exists k | k in sessionInfoMap :: sessionInfoMap[k] == info.value
    {
      if insertionOrder == [] then
        assert forall k :: k !in sessionInfoMap;
        None
      else
        var k := insertionOrder[|insertionOrder| - 1];
        Some(sessionInfoMap[k])
    }

    /** `_session_info_map[id] = info`: a new key goes to the end of the order, an existing one
        keeps its place and gets the new value. */
    method Store(id: string, info: SessionInfo)
      requires Valid()
      modifies this`sessionInfoMap, this`insertionOrder
      ensures Valid()
      ensures sessionInfoMap == old(sessionInfoMap)[id := info]
      ensures insertionOrder == if id in old(sessionInfoMap) then old(insertionOrder) else old(insertionOrder) + [id]
      ensures id !in old(sessionInfoMap) ==> MostRecent() == Some(info)
      ensures id in old(sessionInfoMap) ==>
                MostRecent() == if old(insertionOrder)[|old(insertionOrder)| - 1] == id then Some(info)
                                else old(MostRecent())
    {
      if id !in sessionInfoMap {
        insertionOrder := insertionOrder + [id];
      }
      sessionInfoMap := sessionInfoMap[id := info];
    }

    /** `set_session_handler`. */
    method SetSessionHandler()
      modifies this`hasHandler
      ensures hasHandler
    {
      hasHandler := true;
    }

    /** `stop`: closes the listener if there is one; otherwise nothing happens. */
    method Stop()
      modifies this`listening
      ensures !listening
      ensures !old(listening) ==> unchanged(this)
    {
      if listening {
        listening := false;
      }
    }
  }

  /** Python truthiness of an optional string: absent and empty are both false. */
  predicate Truthy(s: Option<string>) {
    s.Some? && s.value != ""
  }

  /** The PTY request `_process_factory` builds from the terminal type and size the client
      asked for: the type falls back to "xterm" when absent or empty, the size to 80x24 when
      absent or empty, and each pixel dimension to 0 when the size does not carry it. A size
      of exactly one number is indexed at position 1 and raises, which is `None` here. */
  function TerminalRequest(termType: Option<string>, termSize: Option<seq<int>>): (r: Option<Terminal.PTYRequest>)
    ensures r.None? <==> termSize.Some? && |termSize.value| == 1
    ensures r.Some? ==> r.value.termType == if Truthy(termType) then termType.value else "xterm"
    ensures r.Some? ==> r.value.termType != ""
  {
    var size := if termSize.Some? then termSize.value else [];
    if |size| == 1 then None
    else
      Some(Terminal.PTYRequest(
        if Truthy(termType) then termType.value else "xterm",
        if size != [] then size[0] else 80,
        if size != [] then size[1] else 24,
        if |size| > 2 then size[2] else 0,
        if |size| > 3 then size[3] else 0))
  }

  /** A client that sends no terminal size gets an 80x24 terminal with no pixel size. */
  lemma NoSizeDefaults(termType: Option<string>, termSize: Option<seq<int>>)
    requires termSize.None? || termSize == Some([])
    ensures var r := TerminalRequest(termType, termSize);
            r.Some? && r.value.width == 80 && r.value.height == 24
            && r.value.pixelWidth == 0 && r.value.pixelHeight == 0
  {
  }

  /** A full four-number size is carried over exactly, zeros included: the fallback applies to
      the size as a whole, never to one of its numbers. */
  lemma FullSizeCarried(termType: Option<string>, size: seq<int>)
    requires |size| == 4
    ensures var r := TerminalRequest(termType, Some(size));
            r.Some? && [r.value.width, r.value.height, r.value.pixelWidth, r.value.pixelHeight] == size
  {
  }

  /** A two-number size gives the character size and no pixel size. */
  lemma CharacterSizeOnly(termType: Option<string>, width: int, height: int)
    ensures TerminalRequest(termType, Some([width, height])) ==
              Some(Terminal.PTYRequest(if Truthy(termType) then termType.value else "xterm", width, height, 0, 0))
  {
  }

  /** What `_process_factory` did: the session information and PTY request it passed to the
      session handler, if it called it, and the exit status it gave the process, if it got as
      far as exiting. */
  datatype FactoryOutcome = FactoryOutcome(handled: Option<(SessionInfo, Terminal.PTYRequest)>, exitCode: Option<int>)

  /** `SandTrapSSHServer`: one per connection. */
  class SandTrapSshServer {
    const auth: Auth.AuthenticationManager
    const backend: Option<AsyncSshBackend>
    var connectionId: Option<string>
    var sessionInfo: Option<SessionInfo>

    constructor (auth: Auth.AuthenticationManager, backend: Option<AsyncSshBackend>)
      ensures this.auth == auth && this.backend == backend
      ensures connectionId == None && sessionInfo == None
    {
      this.auth := auth;
      this.backend := backend;
      connectionId := None;
      sessionInfo := None;
    }

    /** Python truthiness of `connection_id`. */
    predicate HasConnection()
      reads this
    {
      Truthy(connectionId)
    }

    /** The session information this server may update. */
    function Info(): set<SessionInfo>
      reads this
    {
      if sessionInfo.Some? then {sessionInfo.value} else {}
    }

    function BackendSet(): set<AsyncSshBackend> {
      if backend.Some? then {backend.value} else {}
    }

    /** `connection_made`: takes a fresh connection id (given here), records where the client
        comes from ("unknown" and 0 when the transport does not say), starts a session record
        with an empty username, no success and no failures, and files that same record in the
        backend's map under the connection id. */
    method ConnectionMade(id: string, peer: Option<Peer>)
      requires backend.Some? ==> backend.value.Valid()
      modifies this, BackendSet()
      ensures connectionId == Some(id) && sessionInfo.Some? && fresh(sessionInfo.value)
      ensures var info := sessionInfo.value;
              && info.sessionId == id && info.username == ""
              && info.sourceIp == (if peer.Some? then peer.value.ip else "unknown")
              && info.sourcePort == (if peer.Some? then peer.value.port else 0)
              && !info.authenticated && info.failedAttempts == 0
      ensures backend.Some? ==>
                var b := backend.value;
                && b.Valid()
                && b.sessionInfoMap == old(b.sessionInfoMap)[id := sessionInfo.value]
                && b.insertionOrder == (if id in old(b.sessionInfoMap) then old(b.insertionOrder) else old(b.insertionOrder) + [id])
                && b.listening == old(b.listening) && b.hasHandler == old(b.hasHandler)
    {
      connectionId := Some(id);
      var sourceIp := if peer.Some? then peer.value.ip else "unknown";
      var sourcePort := if peer.Some? then peer.value.port else 0;
      var info := new SessionInfo(id, "", sourceIp, sourcePort);
      sessionInfo := Some(info);
      if backend.Some? {
        backend.value.Store(id, info);
      }
    }

    /** `begin_auth`: remembers the username on the session record, when there is one, and
        always lets authentication go on. */
    method BeginAuth(username: string) returns (proceed: bool)
      modifies Info()
      ensures proceed
      ensures sessionInfo.Some? ==>
                && sessionInfo.value.username == username
                && sessionInfo.value.authenticated == old(sessionInfo.value.authenticated)
                && sessionInfo.value.failedAttempts == old(sessionInfo.value.failedAttempts)
    {
      if sessionInfo.Some? {
        sessionInfo.value.username := username;
      }
      return true;
    }

    /** `validate_password`: without a connection id the answer is no and the authentication
        manager is not asked. Otherwise the answer is the manager's verdict for this
        connection; an acceptance marks the session authenticated and a rejection counts one
        more failed attempt on it. */
    method ValidatePassword(username: string, password: string) returns (ok: bool)
      modifies auth, Info()
      ensures !old(HasConnection()) ==> !ok && unchanged(auth) && unchanged(Info())
      ensures old(HasConnection()) ==>
                Auth.Verdict(ok, auth.failedAttempts) ==
                  Auth.Decide(auth.threshold, auth.credentials, old(auth.failedAttempts),
                              connectionId.value, Auth.Attempt(username, password))
      ensures old(HasConnection()) && sessionInfo.Some? ==>
                var info := sessionInfo.value;
                && info.authenticated == (old(info.authenticated) || ok)
                && info.failedAttempts == old(info.failedAttempts) + (if ok then 0 else 1)
                && info.username == old(info.username)
    {
      if !HasConnection() {
        return false;
      }
      ok := auth.Validate(connectionId.value, username, password);
      if sessionInfo.Some? {
        if ok {
          sessionInfo.value.authenticated := true;
        } else {
          sessionInfo.value.failedAttempts := sessionInfo.value.failedAttempts + 1;
        }
      }
    }

    /** `connection_lost`: the manager forgets this connection's failure counter when there is
        a connection id. The session record stays in the backend's map. */
    method ConnectionLost()
      modifies auth
      ensures HasConnection() ==> auth.failedAttempts == old(auth.failedAttempts) - {connectionId.value}
      ensures !HasConnection() ==> unchanged(auth)
    {
      if HasConnection() {
        auth.CleanupConnection(connectionId.value);
      }
    }
  }

  /** `_process_factory` for a process whose channel may have lost its connection and whose
      client asked for the given terminal. With no connection, no session record at all, or no
      handler it exits with status 1 without calling the handler; otherwise it calls the
      handler with the most recently filed session record and exits with status 0 whatever the
      handler does. A one-number terminal size raises before any of that can happen, after the
      first two checks. */
  method ProcessFactory(backend: AsyncSshBackend, hasConnection: bool, termType: Option<string>,
                        termSize: Option<seq<int>>, handlerRaises: bool) returns (r: FactoryOutcome)
    requires backend.Valid()
    ensures r.handled.Some? <==>
              && hasConnection && backend.sessionInfoMap != map[] && backend.hasHandler
              && TerminalRequest(termType, termSize).Some?
    ensures r.handled.Some? ==>
              && Some(r.handled.value.0) == backend.MostRecent()
              && Some(r.handled.value.1) == TerminalRequest(termType, termSize)
    ensures r.exitCode == Some(0) <==> r.handled.Some?
    ensures r.exitCode == Some(1) <==>
              || !hasConnection || backend.sessionInfoMap == map[]
              || (!backend.hasHandler && TerminalRequest(termType, termSize).Some?)
    ensures r.exitCode.None? <==>
              hasConnection && backend.sessionInfoMap != map[] && TerminalRequest(termType, termSize).None?
  {
    if !hasConnection {
      return FactoryOutcome(None, Some(1));
    }
    if backend.sessionInfoMap == map[] {
      return FactoryOutcome(None, Some(1));
    }
    var info := backend.MostRecent().value;
    var pty := TerminalRequest(termType, termSize);
    if pty.None? {
      return FactoryOutcome(None, None);
    }
    if !backend.hasHandler {
      return FactoryOutcome(None, Some(1));
    }
    // The handler's exception, if it raises, is logged and the process still exits with 0.
    r := FactoryOutcome(Some((info, pty.value)), Some(0));
  }

  /** A client connects, names a user and logs in with the right password: the record the
      shell's handler receives is the very one the server updated, with that username and
      marked authenticated. */
  method LoginScenario() returns (username: string, authenticated: bool, failures: int, exitCode: Option<int>)
    ensures username == "root" && authenticated && failures == 1 && exitCode == Some(0)
  {
    var auth := new Auth.AuthenticationManager([Auth.Credential("root", "toor")], 0);
    assert auth.credentials == map["root" := "toor"] by {
      assert [Auth.Credential("root", "toor")][1..] == [];
    }
    var backend := new AsyncSshBackend(auth);
    backend.SetSessionHandler();
    var server := new SandTrapSshServer(auth, Some(backend));
    server.ConnectionMade("c-1", Some(Peer("203.0.113.7", 50022)));
    var info := server.sessionInfo.value;
    var proceed := server.BeginAuth("root");
    var first := server.ValidatePassword("root", "admin");
    assert !first && info.failedAttempts == 1;
    var second := server.ValidatePassword("root", "toor");
    assert second && info.authenticated && info.failedAttempts == 1;
    var r := ProcessFactory(backend, true, None, None, false);
    assert r.handled.value.0 == info;
    username, authenticated, failures, exitCode := info.username, info.authenticated, info.failedAttempts, r.exitCode;
  }

  /** Two clients connect before the first opens its shell: the first one's handler is given
      the second one's record, since the factory takes the record filed last. */
  method InterleavedScenario() returns (handedTo: string)
    ensures handedTo == "c-2"
  {
    var auth := new Auth.AuthenticationManager([], 0);
    var backend := new AsyncSshBackend(auth);
    backend.SetSessionHandler();
    var first := new SandTrapSshServer(auth, Some(backend));
    first.ConnectionMade("c-1", None);
    var second := new SandTrapSshServer(auth, Some(backend));
    second.ConnectionMade("c-2", None);
    var r := ProcessFactory(backend, true, Some("vt100"), Some([132, 43, 0, 0]), true);
    handedTo := r.handled.value.0.sessionId;
  }

  /** A password check on a server that never saw its connection made is refused and leaves
      the manager's counters alone. */
  method NoConnectionScenario() returns (ok: bool, failures: map<string, nat>)
    ensures !ok && failures == map[]
  {
    var auth := new Auth.AuthenticationManager([Auth.Credential("root", "toor")], 1);
    var server := new SandTrapSshServer(auth, None);
    ok := server.ValidatePassword("root", "toor");
    failures := auth.failedAttempts;
  }
}
