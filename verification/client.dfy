/**
 * The FTP client session of RFC 959: one control connection held in `conn`, a
 * fixed order of command/reply steps, and short-lived data connections opened
 * in passive mode.
 *
 * The network is a script of outcomes (`Network`): each dial, write, read or
 * close takes the next outcome of its kind, and a script that has run out
 * fails. Every such step is appended to `trace` with its outcome.
 *
 * Each operation of the client is first written as a function from one
 * `Session` (the client's state together with the network and the trace) to
 * the next, with the operation's result; the methods of `Client` change the
 * object's fields exactly as those functions say. The lemmas in trace.dfy
 * state what the client promises about the events an operation adds to the
 * trace: which commands it writes and in what order, which reply codes it
 * waited for, and which connections it closes.
 */
module Ftp {
  import opened Wrappers
  import opened GoStrings
  import opened Protocol
  import opened Pasv

  /** What the network will do next, one queue per kind of step. */
  datatype Network = Network(
    dials: seq<bool>,               // each dial, control or data: does it connect
    writes: seq<bool>,              // each command line written on the control connection
    replies: seq<Option<Reply>>,    // each reply read from the control connection, or a read error
    closes: seq<bool>,              // each close, control or data: does it succeed
    payloads: seq<Option<string>>)  // each read of a data connection to its end, or a read error

  /** One step of the client on the network, with its outcome. */
  datatype Event =
    | DialControl(addr: string, ok: bool)
    | CloseControl(ok: bool)
    | Send(text: string, ok: bool)
    | Recv(reply: Option<Reply>)
    | DialData(addr: string, ok: bool)
    | ReadData(payload: Option<string>)
    | CloseData(ok: bool)

  /**
   * Everything an operation reads or changes: the control connection held
   * (numbered by the dial that made it), how many control connections have
   * been dialed, the network script and the trace.
   */
  datatype Session = Session(conn: Option<nat>, dialed: nat, net: Network, trace: seq<Event>)

  /** A session after one step, with the step's outcome. */
  datatype After<T> = After(session: Session, value: T)

  /** The next outcome of a queue, or `none` once it has run out. */
  function Next<T>(q: seq<T>, none: T): T { if q == [] then none else q[0] }

  function Rest<T>(q: seq<T>): seq<T> { if q == [] then [] else q[1..] }

  /** `fmt.Sprintf("%s:%d", host, port)`: unlike JoinHostPort, never bracketed. */
  function ControlAddr(host: string, port: int): (r: string)
    ensures host + ":" <= r
    ensures MinInt64 <= port <= MaxInt64 ==> Atoi(r[|host| + 1..]) == Some(port)
  {
    var r := host + ":" + Itoa(port);
    assert r[|host| + 1..] == Itoa(port);
    if MinInt64 <= port <= MaxInt64 then AtoiItoa(port); r else r
  }

  // ---------------------------------------------------------------------------
  // Single network steps

  function SendOn(s: Session, text: string): After<bool>
  {
    var ok := Next(s.net.writes, false);
    After(s.(net := s.net.(writes := Rest(s.net.writes)), trace := s.trace + [Send(text, ok)]), ok)
  }

  function RecvOn(s: Session): After<Option<Reply>>
  {
    var reply := Next(s.net.replies, None);
    After(s.(net := s.net.(replies := Rest(s.net.replies)), trace := s.trace + [Recv(reply)]), reply)
  }

  /** A successful dial makes control connection number `dialed`. */
  function DialControlOn(s: Session, addr: string): After<bool>
  {
    var ok := Next(s.net.dials, false);
    After(s.(net := s.net.(dials := Rest(s.net.dials)),
             dialed := if ok then s.dialed + 1 else s.dialed,
             trace := s.trace + [DialControl(addr, ok)]), ok)
  }

  function CloseControlOn(s: Session): After<bool>
  {
    var ok := Next(s.net.closes, false);
    After(s.(net := s.net.(closes := Rest(s.net.closes)), trace := s.trace + [CloseControl(ok)]), ok)
  }

  function DialDataOn(s: Session, addr: string): After<bool>
  {
    var ok := Next(s.net.dials, false);
    After(s.(net := s.net.(dials := Rest(s.net.dials)), trace := s.trace + [DialData(addr, ok)]), ok)
  }

  function ReadDataOn(s: Session): After<Option<string>>
  {
    var payload := Next(s.net.payloads, None);
    After(s.(net := s.net.(payloads := Rest(s.net.payloads)), trace := s.trace + [ReadData(payload)]), payload)
  }

  function CloseDataOn(s: Session): After<bool>
  {
    var ok := Next(s.net.closes, false);
    After(s.(net := s.net.(closes := Rest(s.net.closes)), trace := s.trace + [CloseData(ok)]), ok)
  }

  // ---------------------------------------------------------------------------
  // The client's operations as functions of the session

  /** Cmd: write the line; if that worked, read one reply, whatever its code. */
  function CmdSpec(s: Session, text: string): After<Result<Reply, Error>>
  {
    var w := SendOn(s, text);
    if !w.value then After(w.session, Err(WriteFailed(text)))
    else
      var g := RecvOn(w.session);
      After(g.session, if g.value.Some? then Ok(g.value.value) else Err(ReadFailed))
  }

  /**
   * open: close the connection held, failing if that close fails; then dial
   * and read the greeting.
   */
  function OpenSpec(s: Session, addr: string): After<Option<Error>>
  {
    var c := if s.conn.Some? then CloseControlOn(s) else After(s, true);
    if !c.value then After(c.session, Some(CloseFailed)) else DialSpec(c.session, addr)
  }

  /** The dial of open and its greeting, which must carry 220; only then is the new connection held. */
  function DialSpec(s: Session, addr: string): After<Option<Error>>
  {
    var d := DialControlOn(s, addr);
    if !d.value then After(d.session, Some(DialFailed(addr)))
    else
      var g := RecvOn(d.session);
      if g.value.Some? && g.value.value.code == StatusServiceReadyForNewUser
      then After(g.session.(conn := Some(s.dialed)), None)
      else After(g.session, Some(NotReady(g.value)))
  }

  /** One command step of a fixed sequence, and the reply code it needs. */
  datatype Step = Step(verb: string, text: string, needs: int)

  /** The error a step reports for the result of its exchange. */
  function StepError(st: Step, r: Result<Reply, Error>): Option<Error>
  {
    if r.Err? then Some(SendFailed(st.verb, r.error))
    else if r.value.code != st.needs then Some(Rejected(st.verb, r.value))
    else None
  }

  /** Steps run in order, each only after the one before got its code; the first failure ends the run. */
  function RunSpec(s: Session, steps: seq<Step>): After<Option<Error>>
    decreases |steps|
  {
    if steps == [] then After(s, None)
    else
      var c := CmdSpec(s, steps[0].text);
      var e := StepError(steps[0], c.value);
      if e.Some? then After(c.session, e) else RunSpec(c.session, steps[1..])
  }

  /** The three steps of Login after the connection is open. */
  function LoginSteps(user: string, password: string): seq<Step>
  {
    [Step("USER", "USER " + user, StatusNeedPassword),
     Step("PASS", "PASS " + password, StatusUserLoggedIn),
     Step("TYPE", "TYPE I", StatusCommandOK)]
  }

  /** Login: open, then the three steps, stopping at the first failure. */
  function LoginSpec(s: Session, addr: string, user: string, password: string): After<Option<Error>>
  {
    var o := OpenSpec(s, addr);
    if o.value.Some? then o else RunSpec(o.session, LoginSteps(user, password))
  }

  /** What `passiveMode` returns for the result of its PASV exchange. */
  function PassiveAddress(pr: Result<Reply, Error>): Result<string, Error>
  {
    match pr
    case Err(e) => Err(SendFailed("PASV", e))
    case Ok(reply) => ParsePasv(reply.code, reply.msg)
  }

  /** passiveMode: the PASV exchange, and the address parsed from its reply. */
  function PassiveSpec(s: Session): After<Result<string, Error>>
  {
    var c := CmdSpec(s, "PASV");
    After(c.session, PassiveAddress(c.value))
  }

  /**
   * The part of DataCmd after the data connection is up: fetch, then, on
   * every path, the deferred clean-up.
   */
  function TransferSpec(s: Session, text: string): After<Result<string, Error>>
  {
    var f := FetchSpec(s, text);
    After(CleanupSpec(f.session), f.value)
  }

  /** The command exchange, and the read of the data connection only if the exchange went through. */
  function FetchSpec(s: Session, text: string): After<Result<string, Error>>
  {
    var c := CmdSpec(s, text);
    if c.value.Err? then After(c.session, Err(c.value.error))
    else
      var d := ReadDataOn(c.session);
      After(d.session, if d.value.Some? then Ok(d.value.value) else Err(TransferFailed))
  }

  /** DataCmd's deferred block: close the data connection, then read one more control reply; both outcomes are only logged. */
  function CleanupSpec(s: Session): Session
  {
    RecvOn(CloseDataOn(s).session).session
  }

  /** DataCmd: passive mode, the data dial, then the transfer with its clean-up. */
  function DataCmdSpec(s: Session, text: string): After<Result<string, Error>>
  {
    var p := PassiveSpec(s);
    if p.value.Err? then After(p.session, Err(p.value.error))
    else ConnectSpec(p.session, p.value.value, text)
  }

  /** The rest of DataCmd once the server named its data address: dial it, and transfer if that worked. */
  function ConnectSpec(s: Session, addr: string, text: string): After<Result<string, Error>>
  {
    var d := DialDataOn(s, addr);
    if !d.value then After(d.session, Err(DataDialFailed(addr)))
    else TransferSpec(d.session, text)
  }

  /** Close: with a connection held, QUIT and close it, whatever the outcomes; `conn` is kept. */
  function CloseSpec(s: Session): Session
  {
    if s.conn.None? then s
    else CloseControlOn(CmdSpec(s, "QUIT").session).session
  }

  // ---------------------------------------------------------------------------
  // The client object

  class Client {
    const host: string
    const port: int
    /** The control connection held, by the number of the dial that made it; None before the first open. */
    var conn: Option<nat>
    /** Control connections dialed so far; the next one is numbered `dialed`. */
    var dialed: nat
    var net: Network
    var trace: seq<Event>

    function State(): Session
      reads this
    {
      Session(conn, dialed, net, trace)
    }

    /** NewClient: no connection and no network traffic yet. */
    constructor (host: string, port: int, net: Network)
      ensures this.host == host && this.port == port
      ensures State() == Session(None, 0, net, [])
    {
      this.host := host;
      this.port := port;
      this.net := net;
      conn := None;
      dialed := 0;
      trace := [];
    }

    // --- single network steps ------------------------------------------------

    method Write(text: string) returns (ok: bool)
      modifies this`net, this`trace
      ensures State() == SendOn(old(State()), text).session && ok == SendOn(old(State()), text).value
    {
      ok := Next(net.writes, false);
      net := net.(writes := Rest(net.writes));
      trace := trace + [Send(text, ok)];
    }

    method ReadReply() returns (reply: Option<Reply>)
      modifies this`net, this`trace
      ensures State() == RecvOn(old(State())).session && reply == RecvOn(old(State())).value
    {
      reply := Next(net.replies, None);
      net := net.(replies := Rest(net.replies));
      trace := trace + [Recv(reply)];
    }

    method DialControlConn(addr: string) returns (ok: bool)
      modifies this`dialed, this`net, this`trace
      ensures State() == DialControlOn(old(State()), addr).session && ok == DialControlOn(old(State()), addr).value
    {
      ok := Next(net.dials, false);
      net := net.(dials := Rest(net.dials));
      if ok {
        dialed := dialed + 1;
      }
      trace := trace + [DialControl(addr, ok)];
    }

    method CloseControlConn() returns (ok: bool)
      modifies this`net, this`trace
      ensures State() == CloseControlOn(old(State())).session && ok == CloseControlOn(old(State())).value
    {
      ok := Next(net.closes, false);
      net := net.(closes := Rest(net.closes));
      trace := trace + [CloseControl(ok)];
    }

    method DialDataConn(addr: string) returns (ok: bool)
      modifies this`net, this`trace
      ensures State() == DialDataOn(old(State()), addr).session && ok == DialDataOn(old(State()), addr).value
    {
      ok := Next(net.dials, false);
      net := net.(dials := Rest(net.dials));
      trace := trace + [DialData(addr, ok)];
    }

    method ReadAll() returns (payload: Option<string>)
      modifies this`net, this`trace
      ensures State() == ReadDataOn(old(State())).session && payload == ReadDataOn(old(State())).value
    {
      payload := Next(net.payloads, None);
      net := net.(payloads := Rest(net.payloads));
      trace := trace + [ReadData(payload)];
    }

    method CloseDataConn() returns (ok: bool)
      modifies this`net, this`trace
      ensures State() == CloseDataOn(old(State())).session && ok == CloseDataOn(old(State())).value
    {
      ok := Next(net.closes, false);
      net := net.(closes := Rest(net.closes));
      trace := trace + [CloseData(ok)];
    }

    // --- the client's operations ---------------------------------------------

    /** Cmd: write one command line, then read one reply, whatever its code. */
    method Cmd(text: string) returns (r: Result<Reply, Error>)
      requires conn.Some?
      modifies this`net, this`trace
      ensures State() == CmdSpec(old(State()), text).session && r == CmdSpec(old(State()), text).value
    {
      var ok := Write(text);
      if !ok {
        r := Err(WriteFailed(text));
        return;
      }
      var reply := ReadReply();
      r := if reply.Some? then Ok(reply.value) else Err(ReadFailed);
    }

    /** open: replace the connection held by a new one that greeted with 220. */
    method Open() returns (err: Option<Error>)
      modifies this`conn, this`dialed, this`net, this`trace
      ensures var o := OpenSpec(old(State()), ControlAddr(host, port)); State() == o.session && err == o.value
    {
      var addr := ControlAddr(host, port);
      if conn.Some? {
        var closed := CloseControlConn();
        if !closed {
          return Some(CloseFailed);
        }
      }
      var id := dialed;
      var ok := DialControlConn(addr);
      if !ok {
        return Some(DialFailed(addr));
      }
      var greeting := ReadReply();
      if greeting.None? || greeting.value.code != StatusServiceReadyForNewUser {
        return Some(NotReady(greeting));
      }
      conn := Some(id);
      err := None;
    }

    /** Login: open, then USER (needs 331), PASS (needs 230) and TYPE I (needs 200), stopping at the first failure. */
    method Login(user: string, password: string) returns (err: Option<Error>)
      modifies this`conn, this`dialed, this`net, this`trace
      ensures var l := LoginSpec(old(State()), ControlAddr(host, port), user, password);
              State() == l.session && err == l.value
    {
      err := Open();
      if err.Some? {
        return;
      }
      var steps := LoginSteps(user, password);
      var r := Cmd(steps[0].text);
      err := StepError(steps[0], r);
      if err.Some? {
        return;
      }
      ghost var s2 := State();
      r := Cmd(steps[1].text);
      err := StepError(steps[1], r);
      if err.Some? {
        assert RunSpec(s2, steps[1..]) == After(State(), err);
        return;
      }
      ghost var s3 := State();
      r := Cmd(steps[2].text);
      err := StepError(steps[2], r);
      assert RunSpec(s3, steps[2..]) == After(State(), err) by {
        assert steps[2..][1..] == [];
      }
      assert steps[1..][1..] == steps[2..];
      assert RunSpec(s2, steps[1..]) == After(State(), err);
    }

    /** passiveMode: PASV, which must get 227, and the address parsed from the reply. */
    method PassiveMode() returns (addr: Result<string, Error>)
      requires conn.Some?
      modifies this`net, this`trace
      ensures State() == PassiveSpec(old(State())).session && addr == PassiveSpec(old(State())).value
    {
      var r := Cmd("PASV");
      addr := PassiveAddress(r);
    }

    /** DataCmd: passive mode, dial the data connection, then the transfer and its clean-up. */
    method DataCmd(text: string) returns (r: Result<string, Error>)
      requires conn.Some?
      modifies this`net, this`trace
      ensures State() == DataCmdSpec(old(State()), text).session && r == DataCmdSpec(old(State()), text).value
    {
      var addr := PassiveMode();
      if addr.Err? {
        return Err(addr.error);
      }
      var ok := DialDataConn(addr.value);
      if !ok {
        return Err(DataDialFailed(addr.value));
      }
      r := Transfer(text);
    }

    /**
     * The part of DataCmd after the data connection is up: send `text`, read
     * the data connection only if that exchange went through, then, on every
     * path, close the data connection and read one more control reply.
     */
    method Transfer(text: string) returns (r: Result<string, Error>)
      requires conn.Some?
      modifies this`net, this`trace
      ensures State() == TransferSpec(old(State()), text).session && r == TransferSpec(old(State()), text).value
    {
      var cr := Cmd(text);
      if cr.Err? {
        r := Err(cr.error);
      } else {
        var payload := ReadAll();
        r := if payload.Some? then Ok(payload.value) else Err(TransferFailed);
      }
      // the deferred clean-up
      var _ := CloseDataConn();
      var _ := ReadReply();
    }

    /** Close: if a connection is held, send QUIT and close it; errors are only logged, and `conn` is kept. */
    method Close()
      modifies this`net, this`trace
      ensures State() == CloseSpec(old(State()))
    {
      if conn.Some? {
        var _ := Cmd("QUIT");
        var _ := CloseControlConn();
      }
    }
  }
}
