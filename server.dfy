/** Connections and the connection registry (src/server.rs). Time is a clock reading `now` in
    nanoseconds, passed in where the source asks the system clock; the concurrent maps are
    sequential `map` fields. */
module Registry {
  import opened Results
  import opened Wire
  import opened Auth

  const NANOS_PER_SEC: nat := 1_000_000_000

  /** An IP address, carried but never inspected. */
  type IpAddr(==)

  /** The catch-all error type `reset_lifetime` declares; the code never produces one. */
  type AnyError

  /** A client's socket address. */
  datatype SocketAddr = SocketAddr(ip: IpAddr, port: Word)

  /** `Instant::elapsed`: the time since `since`, saturating at zero for a clock reading before it. */
  function Elapsed(since: nat, now: nat): (d: nat)
    ensures since <= now ==> since + d == now
    ensures now <= since ==> d == 0
  {
    if now >= since then now - since else 0
  }

  /** The liveness test of `is_alive`: less than `ttl` whole seconds have passed since `createdAt`. */
  function Alive(createdAt: nat, ttl: Byte, now: nat): (alive: bool)
    ensures alive <==> 0 < ttl && now < createdAt + ttl as nat * NANOS_PER_SEC
  {
    Elapsed(createdAt, now) < ttl as nat * NANOS_PER_SEC
  }

  /** Once dead, a connection that is not refreshed stays dead. */
  lemma DeadStaysDead(createdAt: nat, ttl: Byte, now: nat, later: nat)
    requires now <= later && !Alive(createdAt, ttl, now)
    ensures !Alive(createdAt, ttl, later)
  {
  }

  /** `Conn`: one client tunnel. Only `createdAt` ever changes after construction. */
  class Conn {
    const connId: Word
    const ttl: Byte
    const encryptMethod: EncryptMethod
    const addr: SocketAddr
    const clientId: Uuid
    var createdAt: nat

    /** `Conn::new`: the id is the client's port and the lifetime is `CONN_LIFETIME`. */
    constructor (encryptMethod: EncryptMethod, addr: SocketAddr, clientId: Uuid, now: nat)
      ensures connId == addr.port && ttl == CONN_LIFETIME
      ensures this.encryptMethod == encryptMethod && this.addr == addr && this.clientId == clientId
      ensures createdAt == now
      ensures IsAlive(now)
    {
      var port := addr.port;
      connId := port;
      ttl := CONN_LIFETIME;
      this.encryptMethod := encryptMethod;
      this.addr := addr;
      this.clientId := clientId;
      createdAt := now;
    }

    /** `is_alive`: strictly less than `ttl` seconds since creation or the last refresh, so a
        connection exactly at its lifetime is dead. */
    function IsAlive(now: nat): (alive: bool)
      reads this
      ensures alive <==> 0 < ttl && now < createdAt + ttl as nat * NANOS_PER_SEC
    {
      Alive(createdAt, ttl, now)
    }

    /** `reset_lifetime`: restarts the lifetime at `now`; always succeeds. */
    method ResetLifetime(now: nat) returns (r: Result<(), AnyError>)
      modifies this`createdAt
      ensures r.Ok? && createdAt == now
      ensures 0 < ttl ==> forall t: nat :: t < now + ttl as nat * NANOS_PER_SEC ==> IsAlive(t)
      ensures forall t: nat :: t >= now + ttl as nat * NANOS_PER_SEC ==> !IsAlive(t)
    {
      createdAt := now;
      return Ok(());
    }
  }

  /** `Server`: the port range and the two registries, keyed by connection id. */
  class Server {
    const portStart: Word
    const portEnd: Word
    // keyed by the connection id's value
    var conns: map<nat, Conn>
    var auth: map<nat, Authenticator>

    /** `Server::new`: the range must hold at least one port; both registries start empty. */
    constructor (portStart: Word, portEnd: Word)
      requires portStart <= portEnd
      ensures this.portStart == portStart && this.portEnd == portEnd
      ensures conns == map[] && auth == map[]
    {
      this.portStart := portStart;
      this.portEnd := portEnd;
      conns := map[];
      auth := map[];
    }

    /** `check_alive`: drops the connection `connId` from `conns` when it is dead and keeps it
        when it is alive. The authenticator registry is left as it is either way. The id must be
        registered: the source panics otherwise. */
    method CheckAlive(connId: Word, now: nat)
      requires connId as nat in conns
      modifies this`conns
      ensures old(conns[connId as nat].IsAlive(now)) ==> conns == old(conns)
      ensures !old(conns[connId as nat].IsAlive(now)) ==> conns == old(conns) - {connId as nat}
      ensures !old(conns[connId as nat].IsAlive(now)) ==> connId as nat !in conns
      ensures auth == old(auth)
    {
      var conn := conns[connId as nat];
      if !conn.IsAlive(now) {
        conns := conns - {connId as nat};
      }
    }
  }

  /** The lifetime scenario: alive when made, dead from 65 seconds on, and a refresh at 60
      seconds keeps it alive past the original 65-second mark. */
  method LifetimeScenario(addr: SocketAddr, clientId: Uuid, start: nat)
  {
    var c := new Conn(Aes, addr, clientId, start);
    assert c.IsAlive(start);
    assert c.IsAlive(start + 65 * NANOS_PER_SEC - 1);
    assert !c.IsAlive(start + 65 * NANOS_PER_SEC);
    var refreshed := c.ResetLifetime(start + 60 * NANOS_PER_SEC);
    assert c.IsAlive(start + 100 * NANOS_PER_SEC);
    assert !c.IsAlive(start + 125 * NANOS_PER_SEC);
  }
}
