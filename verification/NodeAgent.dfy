/** The agent's side of a node connection (node/internal/agent/agent.go): where the reconnect secret
    comes from and where it is kept. */
module NodeAgent {
  import opened Prelude

  type NodeId = string
  type Secret = string

  /** memory: the secret of the last accepted handshake; configured: the one fixed at process start;
      file: the secret file's content; hasFile: a file path is configured. Intervals are seconds. */
  datatype State = State(memory: Secret, configured: Secret, hasFile: bool, file: Option<Secret>, nodeID: NodeId,
                         heartbeatInterval: int, statusInterval: int)

  /** The payload of the first message from the panel, None when it is no HandshakeAck. */
  datatype HandshakeAck = HandshakeAck(ok: bool, nodeID: NodeId, reconnectSecret: Secret,
                                       heartbeatIntervalSec: int, statusIntervalSec: int)

  datatype AckError = NotAnAck | Rejected

  // ---------- specification ----------

  /** `New`: a secret from the environment wins over the file. */
  function Booted(env: Secret, hasFile: bool, file: Option<Secret>): State {
    State("", if env == "" && hasFile && file.Some? then file.value else env, hasFile, file, "", 10, 30)
  }

  /** The secret the next handshake carries. */
  function Stored(s: State): Secret {
    if s.memory != "" then s.memory else s.configured
  }

  function AckAccepted(s: State, a: HandshakeAck): State {
    s.(nodeID := a.nodeID, memory := a.reconnectSecret,
       heartbeatInterval := if a.heartbeatIntervalSec > 0 then a.heartbeatIntervalSec else s.heartbeatInterval,
       statusInterval := if a.statusIntervalSec > 0 then a.statusIntervalSec else s.statusInterval)
  }

  function SecretWritten(s: State, secret: Secret, writable: bool): State {
    if s.hasFile && writable then s.(file := Some(secret)) else s
  }

  // ---------- the agent ----------

  class Agent {
    var memory: Secret
    var configured: Secret
    var hasFile: bool
    var file: Option<Secret>
    var nodeID: NodeId
    var heartbeatInterval: int
    var statusInterval: int

    ghost function Abstract(): State
      reads this
    {
      State(memory, configured, hasFile, file, nodeID, heartbeatInterval, statusInterval)
    }

    constructor New(env: Secret, hasFile: bool, file: Option<Secret>)
      ensures Abstract() == Booted(env, hasFile, file)
      ensures env != "" ==> configured == env
      ensures env == "" ==> configured == if hasFile && file.Some? then file.value else ""
      ensures this.hasFile == hasFile && this.file == file && memory == "" && nodeID == ""
      ensures heartbeatInterval == 10 && statusInterval == 30
    {
      configured := env;
      if env == "" && hasFile {
        if file.Some? {
          configured := file.value;
        }
      }
      this.hasFile, this.file := hasFile, file;
      memory, nodeID := "", "";
      heartbeatInterval, statusInterval := 10, 30;
    }

    method HandshakeSecret() returns (secret: Secret)
      ensures secret == Stored(Abstract())
      ensures memory != "" ==> secret == memory
      ensures memory == "" ==> secret == configured
    {
      secret := memory;
      if secret == "" {
        secret := configured;
      }
    }

    method HandleAck(first: Option<HandshakeAck>, writable: bool) returns (r: Result<(), AckError>)
      modifies this
      ensures first.None? ==> r == Err(NotAnAck)
      ensures first.Some? && !first.value.ok ==> r == Err(Rejected)
      ensures first.Some? && first.value.ok ==> r.Ok?
      ensures Abstract()
           == if r.Ok?
              then SecretWritten(AckAccepted(old(Abstract()), first.value), first.value.reconnectSecret, writable)
              else old(Abstract())
      ensures configured == old(configured) && hasFile == old(hasFile)
      ensures r.Ok? ==> nodeID == first.value.nodeID && memory == first.value.reconnectSecret
      ensures r.Ok? ==> file == if hasFile && writable then Some(first.value.reconnectSecret) else old(file)
      ensures r.Ok? && first.value.heartbeatIntervalSec > 0 ==> heartbeatInterval == first.value.heartbeatIntervalSec
      ensures r.Ok? && first.value.heartbeatIntervalSec <= 0 ==> heartbeatInterval == old(heartbeatInterval)
      ensures r.Ok? && first.value.statusIntervalSec > 0 ==> statusInterval == first.value.statusIntervalSec
      ensures r.Ok? && first.value.statusIntervalSec <= 0 ==> statusInterval == old(statusInterval)
    {
      if first.None? {
        return Err(NotAnAck);
      }
      var ack := first.value;
      if !ack.ok {
        return Err(Rejected);
      }
      nodeID := ack.nodeID;
      memory := ack.reconnectSecret;
      if ack.heartbeatIntervalSec > 0 {
        heartbeatInterval := ack.heartbeatIntervalSec;
      }
      if ack.statusIntervalSec > 0 {
        statusInterval := ack.statusIntervalSec;
      }
      PersistSecret(ack.reconnectSecret, writable);
      return Ok(());
    }

    method PersistSecret(secret: Secret, writable: bool)
      modifies `file
      ensures Abstract() == SecretWritten(old(Abstract()), secret, writable)
    {
      if !hasFile {
        return;
      }
      if writable {
        file := Some(secret);
      }
    }
  }

  /** A secret that was accepted and written survives a restart exactly when the environment does not
      override it (or happens to name it). */
  lemma SurvivesRestart(s: State, a: HandshakeAck, env: Secret)
    requires s.hasFile && a.reconnectSecret != ""
    ensures var after := SecretWritten(AckAccepted(s, a), a.reconnectSecret, true);
            && Stored(after) == a.reconnectSecret
            && (Stored(Booted(env, after.hasFile, after.file)) == a.reconnectSecret
                <==> env == "" || env == a.reconnectSecret)
  {
  }
}
