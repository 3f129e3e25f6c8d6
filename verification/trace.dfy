/**
 * What the client promises about the events each operation adds to the
 * trace: the command lines it writes and their order, the reply codes it
 * waited for before writing the next line, and the connections it dials and
 * closes.
 */
module FtpTrace {
  import opened Wrappers
  import opened Protocol
  import opened Pasv
  import opened Ftp

  /** The events added between two sessions, when the first trace is a prefix of the second. */
  function Added(s: Session, s2: Session): seq<Event>
  {
    if |s.trace| <= |s2.trace| then s2.trace[|s.trace|..] else []
  }

  /** Every command line the client tried to write, in order. */
  function Sent(t: seq<Event>): seq<string>
  {
    if t == [] then [] else (if t[0].Send? then [t[0].text] else []) + Sent(t[1..])
  }

  /** The codes of the replies the client read, in order. */
  function Codes(t: seq<Event>): seq<int>
  {
    if t == [] then []
    else (if t[0].Recv? && t[0].reply.Some? then [t[0].reply.value.code] else []) + Codes(t[1..])
  }

  /** What the client read from data connections, in order. */
  function Payloads(t: seq<Event>): seq<string>
  {
    if t == [] then []
    else (if t[0].ReadData? && t[0].payload.Some? then [t[0].payload.value] else []) + Payloads(t[1..])
  }

  /** How many data connections were opened. */
  function DataDials(t: seq<Event>): nat
  {
    if t == [] then 0 else (if t[0].DialData? && t[0].ok then 1 else 0) + DataDials(t[1..])
  }

  /** How many times a data connection was closed. */
  function DataCloses(t: seq<Event>): nat
  {
    if t == [] then 0 else (if t[0].CloseData? then 1 else 0) + DataCloses(t[1..])
  }

  /** How many control connections were dialed, successfully or not. */
  function ControlDials(t: seq<Event>): nat
  {
    if t == [] then 0 else (if t[0].DialControl? then 1 else 0) + ControlDials(t[1..])
  }

  /** The command lines of a sequence of steps. */
  function Texts(steps: seq<Step>): (r: seq<string>)
    ensures |r| == |steps|
  {
    if steps == [] then [] else [steps[0].text] + Texts(steps[1..])
  }

  /** The codes a sequence of steps needs. */
  function Needs(steps: seq<Step>): (r: seq<int>)
    ensures |r| == |steps|
  {
    if steps == [] then [] else [steps[0].needs] + Needs(steps[1..])
  }

  // ---------------------------------------------------------------------------
  // Helpers: the observations of a trace split over its parts

  /** Every observation of a trace is the observation of its first part followed by that of the rest. */
  lemma Tally(a: seq<Event>, b: seq<Event>)
    ensures Sent(a + b) == Sent(a) + Sent(b)
    ensures Codes(a + b) == Codes(a) + Codes(b)
    ensures Payloads(a + b) == Payloads(a) + Payloads(b)
    ensures DataDials(a + b) == DataDials(a) + DataDials(b)
    ensures DataCloses(a + b) == DataCloses(a) + DataCloses(b)
    ensures ControlDials(a + b) == ControlDials(a) + ControlDials(b)
  {
    TallySent(a, b);
    TallyCodes(a, b);
    TallyPayloads(a, b);
    TallyDataDials(a, b);
    TallyDataCloses(a, b);
    TallyControlDials(a, b);
  }

  lemma {:induction false} TallySent(a: seq<Event>, b: seq<Event>)
    ensures Sent(a + b) == Sent(a) + Sent(b)
  {
    if a == [] {
      assert a + b == b;
    } else {
      assert (a + b)[0] == a[0] && (a + b)[1..] == a[1..] + b;
      TallySent(a[1..], b);
    }
  }

  lemma {:induction false} TallyCodes(a: seq<Event>, b: seq<Event>)
    ensures Codes(a + b) == Codes(a) + Codes(b)
  {
    if a == [] {
      assert a + b == b;
    } else {
      assert (a + b)[0] == a[0] && (a + b)[1..] == a[1..] + b;
      TallyCodes(a[1..], b);
    }
  }

  lemma {:induction false} TallyPayloads(a: seq<Event>, b: seq<Event>)
    ensures Payloads(a + b) == Payloads(a) + Payloads(b)
  {
    if a == [] {
      assert a + b == b;
    } else {
      assert (a + b)[0] == a[0] && (a + b)[1..] == a[1..] + b;
      TallyPayloads(a[1..], b);
    }
  }

  lemma {:induction false} TallyDataDials(a: seq<Event>, b: seq<Event>)
    ensures DataDials(a + b) == DataDials(a) + DataDials(b)
  {
    if a == [] {
      assert a + b == b;
    } else {
      assert (a + b)[0] == a[0] && (a + b)[1..] == a[1..] + b;
      TallyDataDials(a[1..], b);
    }
  }

  lemma {:induction false} TallyDataCloses(a: seq<Event>, b: seq<Event>)
    ensures DataCloses(a + b) == DataCloses(a) + DataCloses(b)
  {
    if a == [] {
      assert a + b == b;
    } else {
      assert (a + b)[0] == a[0] && (a + b)[1..] == a[1..] + b;
      TallyDataCloses(a[1..], b);
    }
  }

  lemma {:induction false} TallyControlDials(a: seq<Event>, b: seq<Event>)
    ensures ControlDials(a + b) == ControlDials(a) + ControlDials(b)
  {
    if a == [] {
      assert a + b == b;
    } else {
      assert (a + b)[0] == a[0] && (a + b)[1..] == a[1..] + b;
      TallyControlDials(a[1..], b);
    }
  }

  lemma Single(x: Event)
    ensures Sent([x]) == (if x.Send? then [x.text] else [])
    ensures Codes([x]) == (if x.Recv? && x.reply.Some? then [x.reply.value.code] else [])
    ensures Payloads([x]) == (if x.ReadData? && x.payload.Some? then [x.payload.value] else [])
    ensures DataDials([x]) == (if x.DialData? && x.ok then 1 else 0)
    ensures DataCloses([x]) == (if x.CloseData? then 1 else 0)
    ensures ControlDials([x]) == (if x.DialControl? then 1 else 0)
  {
    assert [x][1..] == [];
  }

  lemma AddedIs(s: Session, s2: Session, e: seq<Event>)
    requires s2.trace == s.trace + e
    ensures s.trace <= s2.trace && Added(s, s2) == e
  {
  }

  lemma AddedChain(a: Session, b: Session, c: Session)
    requires a.trace <= b.trace && b.trace <= c.trace
    ensures a.trace <= c.trace && Added(a, c) == Added(a, b) + Added(b, c)
  {
  }

  /**
   * The events of a run of steps are back-to-back exchanges: each writes the
   * next step's line and, when the write went through, reads one reply. The
   * next line is written right after a reply carrying the code the step
   * before it needs, and only then; the run goes on until a step fails or no
   * step is left.
   */
  ghost predicate Exchanges(e: seq<Event>, steps: seq<Step>)
    decreases |steps|
  {
    if e == [] then steps == []
    else
      |steps| >= 1 && e[0].Send? && e[0].text == steps[0].text &&
      (!e[0].ok ==> |e| == 1) &&
      (e[0].ok ==> (|e| >= 2 && e[1].Recv? &&
                    if e[1].reply.Some? && e[1].reply.value.code == steps[0].needs
                    then Exchanges(e[2..], steps[1..])
                    else |e| == 2))
  }

  /** No data connection is dialed, successfully or not, in these events. */
  ghost predicate NoDial(e: seq<Event>)
  {
    forall i :: 0 <= i < |e| ==> !e[i].DialData?
  }

  /**
   * The events start with the one data dial, to `addr`, and dial nothing
   * after it; a failed dial is the last event.
   */
  ghost predicate DialFirst(e: seq<Event>, addr: string)
  {
    |e| >= 1 && e[0].DialData? && e[0].addr == addr && (!e[0].ok ==> |e| == 1) &&
    forall i :: 1 <= i < |e| ==> !e[i].DialData?
  }

  /**
   * Every data dial in the events is the third event, after PASV was written
   * and answered 227.
   */
  ghost predicate DialAfterPasv(e: seq<Event>)
  {
    (forall i :: 0 <= i < |e| && e[i].DialData? ==> i == 2) &&
    (|e| > 2 && e[2].DialData? ==>
       e[0] == Send("PASV", true) && e[1].Recv? && e[1].reply.Some? &&
       e[1].reply.value.code == StatusEnteringPassiveMode)
  }

  /** A data dial, third in the events, goes to the address parsed from the reply before it. */
  ghost predicate DialsParsed(e: seq<Event>)
  {
    |e| > 2 && e[2].DialData? ==> AddressFrom(e[1], e[2])
  }

  /** `dial` goes to the address parsed from `reply`. */
  ghost predicate AddressFrom(reply: Event, dial: Event)
  {
    reply.Recv? && reply.reply.Some? && dial.DialData? &&
    ParsePasv(reply.reply.value.code, reply.reply.value.msg) == Ok(dial.addr)
  }

  /** No data connection is read in these events. */
  ghost predicate NoRead(e: seq<Event>)
  {
    forall i :: 0 <= i < |e| ==> !e[i].ReadData?
  }

  /**
   * The events write `text` at index `k`, and every read of a data
   * connection comes right after that write went through and its reply was
   * read: the command is written before any data is read, and nothing is read
   * after a failed exchange.
   */
  ghost predicate ReadAfterWrite(e: seq<Event>, k: nat, text: string)
  {
    k < |e| && e[k].Send? && e[k].text == text &&
    forall i :: 0 <= i < |e| && e[i].ReadData? ==>
      i == k + 2 && e[k].ok && e[k + 1].Recv? && e[k + 1].reply.Some?
  }

  /** Events that read no data connection keep ReadAfterWrite when they follow. */
  lemma ReadAfterWriteThen(e: seq<Event>, tail: seq<Event>, k: nat, text: string)
    requires ReadAfterWrite(e, k, text) && NoRead(tail)
    ensures ReadAfterWrite(e + tail, k, text)
  {
  }

  /** Events that read no data connection keep ReadAfterWrite, shifted, when they come first. */
  lemma ReadAfterWriteBehind(p: seq<Event>, e: seq<Event>, k: nat, text: string)
    requires NoRead(p) && ReadAfterWrite(e, k, text)
    ensures ReadAfterWrite(p + e, |p| + k, text)
  {
    var pe := p + e;
    assert pe[|p| + k] == e[k];
    forall i | 0 <= i < |pe| && pe[i].ReadData?
      ensures i == |p| + k + 2 && pe[|p| + k].ok && pe[|p| + k + 1].Recv? && pe[|p| + k + 1].reply.Some?
    {
      if i >= |p| {
        assert pe[i] == e[i - |p|];
        assert pe[|p| + k + 1] == e[k + 1];
      }
    }
  }

  // ---------------------------------------------------------------------------
  // One operation at a time

  /** Cmd writes exactly its line, and reads a reply only after the write went through. */
  lemma CmdTrace(s: Session, text: string)
    ensures var c := CmdSpec(s, text); var e := Added(s, c.session);
      s.trace <= c.session.trace && c.session.conn == s.conn && c.session.dialed == s.dialed &&
      Sent(e) == [text] &&
      Codes(e) == (if c.value.Ok? then [c.value.value.code] else []) &&
      Payloads(e) == [] && DataDials(e) == 0 && DataCloses(e) == 0 && ControlDials(e) == 0
  {
    var w := SendOn(s, text);
    Single(Send(text, w.value));
    if !w.value {
      AddedIs(s, w.session, [Send(text, false)]);
    } else {
      var g := RecvOn(w.session);
      AddedIs(s, g.session, [Send(text, true)] + [Recv(g.value)]);
      Single(Recv(g.value));
      Tally([Send(text, true)], [Recv(g.value)]);
    }
  }

  /**
   * open writes no command and touches no data connection; it dials at most
   * once and reads at most one reply; it succeeds exactly when that reply is
   * a 220 greeting.
   */
  lemma OpenTrace(s: Session, addr: string)
    ensures var o := OpenSpec(s, addr); var e := Added(s, o.session);
      s.trace <= o.session.trace &&
      Sent(e) == [] && Payloads(e) == [] && DataDials(e) == 0 && DataCloses(e) == 0 &&
      ControlDials(e) <= 1 && |Codes(e)| <= 1 &&
      (o.value.None? <==> Codes(e) == [StatusServiceReadyForNewUser])
  {
    var c := if s.conn.Some? then CloseControlOn(s) else After(s, true);
    var pre: seq<Event> := if s.conn.Some? then [CloseControl(c.value)] else [];
    AddedIs(s, c.session, pre);
    Single(CloseControl(c.value));
    if !c.value {
      OpenObs(pre, []);
      assert pre + [] == pre;
    } else {
      var d := DialSpec(c.session, addr);
      DialTrace(c.session, addr);
      AddedChain(s, c.session, d.session);
      OpenObs(pre, Added(c.session, d.session));
    }
  }

  /** The dial and greeting of open, on their own. */
  lemma DialTrace(s: Session, addr: string)
    ensures var o := DialSpec(s, addr); var e := Added(s, o.session);
      s.trace <= o.session.trace &&
      Sent(e) == [] && Payloads(e) == [] && DataDials(e) == 0 && DataCloses(e) == 0 &&
      ControlDials(e) == 1 && |Codes(e)| <= 1 &&
      (o.value.None? <==> Codes(e) == [StatusServiceReadyForNewUser])
  {
    var d := DialControlOn(s, addr);
    Single(DialControl(addr, d.value));
    if !d.value {
      assert DialSpec(s, addr) == After(d.session, Some(DialFailed(addr)));
      AddedIs(s, d.session, [DialControl(addr, false)]);
    } else {
      var g := RecvOn(d.session);
      var e := [DialControl(addr, true)] + [Recv(g.value)];
      GreetingObs(addr, g.value);
      AddedIs(s, g.session, e);
      assert DialSpec(s, addr).session.trace == g.session.trace;
    }
  }

  /** A control dial that worked, followed by one reply read. */
  lemma GreetingObs(addr: string, reply: Option<Reply>)
    ensures var e := [DialControl(addr, true)] + [Recv(reply)];
      Sent(e) == [] && Payloads(e) == [] && DataDials(e) == 0 && DataCloses(e) == 0 &&
      ControlDials(e) == 1 && Codes(e) == (if reply.Some? then [reply.value.code] else [])
  {
    Single(DialControl(addr, true));
    Single(Recv(reply));
    Tally([DialControl(addr, true)], [Recv(reply)]);
  }

  lemma OpenObs(pre: seq<Event>, tail: seq<Event>)
    requires Sent(pre) == [] && Codes(pre) == [] && Payloads(pre) == [] && DataDials(pre) == 0
    requires DataCloses(pre) == 0 && ControlDials(pre) == 0
    requires Sent(tail) == [] && Payloads(tail) == [] && DataDials(tail) == 0 && DataCloses(tail) == 0
    requires ControlDials(tail) <= 1 && |Codes(tail)| <= 1
    ensures var e := pre + tail;
      Sent(e) == [] && Payloads(e) == [] && DataDials(e) == 0 && DataCloses(e) == 0 &&
      ControlDials(e) <= 1 && Codes(e) == Codes(tail)
  {
    Tally(pre, tail);
  }

  /**
   * open replaces `conn` only when it succeeds, by the connection it dialed;
   * a connection already held is closed first, and if that close fails
   * nothing is dialed.
   */
  lemma OpenConn(s: Session, addr: string)
    ensures var o := OpenSpec(s, addr); var e := Added(s, o.session);
      s.trace <= o.session.trace &&
      (o.value.None? ==> o.session.conn == Some(s.dialed) && o.session.dialed == s.dialed + 1) &&
      (o.value.Some? ==> o.session.conn == s.conn) &&
      (s.conn.Some? ==> |e| >= 1 && e[0].CloseControl? && (!e[0].ok ==> e == [CloseControl(false)]))
  {
    var o := OpenSpec(s, addr);
    var c := if s.conn.Some? then CloseControlOn(s) else After(s, true);
    var pre: seq<Event> := if s.conn.Some? then [CloseControl(c.value)] else [];
    AddedIs(s, c.session, pre);
    if c.value {
      var d := DialControlOn(c.session, addr);
      var tail := if d.value then [DialControl(addr, true), Recv(RecvOn(d.session).value)]
                  else [DialControl(addr, false)];
      AddedIs(c.session, o.session, tail);
      AddedChain(s, c.session, o.session);
    }
  }

  /**
   * What a run of steps shows in its events, counted apart from their order:
   * it wrote a prefix of the steps' lines, a line only if the codes read
   * begin with the codes the lines before it need; it read no more replies
   * than it wrote lines; and it succeeded exactly when the codes read are the
   * codes the steps need.
   */
  ghost predicate RunObserved(e: seq<Event>, steps: seq<Step>, ok: bool)
  {
    |Sent(e)| <= |steps| && Sent(e) == Texts(steps)[..|Sent(e)|] &&
    (|Sent(e)| == 0 || Needs(steps)[..|Sent(e)| - 1] <= Codes(e)) &&
    |Codes(e)| <= |Sent(e)| &&
    (ok <==> Codes(e) == Needs(steps)) &&
    (ok ==> Sent(e) == Texts(steps))
  }

  lemma StepsCons(st: Step, rest: seq<Step>)
    ensures Texts([st] + rest) == [st.text] + Texts(rest)
    ensures Needs([st] + rest) == [st.needs] + Needs(rest)
  {
    assert ([st] + rest)[1..] == rest;
  }

  /** A first step whose exchange failed or got the wrong code ends the run, failed. */
  lemma RunObservedStop(ec: seq<Event>, st: Step, rest: seq<Step>)
    requires Sent(ec) == [st.text]
    requires Codes(ec) == [] || (|Codes(ec)| == 1 && Codes(ec)[0] != st.needs)
    ensures RunObserved(ec, [st] + rest, false)
  {
    StepsCons(st, rest);
  }

  /** A first step that got its code, followed by the run of the others. */
  lemma RunObservedCons(ec: seq<Event>, er: seq<Event>, st: Step, rest: seq<Step>, ok: bool)
    requires Sent(ec) == [st.text] && Codes(ec) == [st.needs]
    requires RunObserved(er, rest, ok)
    ensures RunObserved(ec + er, [st] + rest, ok)
  {
    Tally(ec, er);
    StepsCons(st, rest);
    assert Codes(er) == Codes(ec + er)[1..];
    assert Needs(rest) == Needs([st] + rest)[1..];
    var n := |Sent(er)|;
    assert Sent(ec + er)[..n + 1] == [st.text] + Sent(er)[..n];
    assert Texts([st] + rest)[..n + 1] == [st.text] + Texts(rest)[..n];
    if n > 0 {
      assert Needs([st] + rest)[..n] == [st.needs] + Needs(rest)[..n - 1];
    }
  }

  /** A run of steps behaves as RunObserved says, and touches nothing but the control connection; the order of its events is RunOrder's. */
  lemma {:induction false} RunTrace(s: Session, steps: seq<Step>)
    ensures var r := RunSpec(s, steps); var e := Added(s, r.session);
      s.trace <= r.session.trace && r.session.conn == s.conn && r.session.dialed == s.dialed &&
      Payloads(e) == [] && DataDials(e) == 0 && DataCloses(e) == 0 && ControlDials(e) == 0 &&
      RunObserved(e, steps, r.value.None?)
    decreases |steps|
  {
    if steps == [] {
      AddedIs(s, s, []);
    } else {
      var c := CmdSpec(s, steps[0].text);
      CmdTrace(s, steps[0].text);
      var ec := Added(s, c.session);
      var err := StepError(steps[0], c.value);
      assert steps == [steps[0]] + steps[1..];
      if err.Some? {
        RunObservedStop(ec, steps[0], steps[1..]);
      } else {
        var r := RunSpec(c.session, steps[1..]);
        RunTrace(c.session, steps[1..]);
        var er := Added(c.session, r.session);
        AddedChain(s, c.session, r.session);
        Tally(ec, er);
        RunObservedCons(ec, er, steps[0], steps[1..], r.value.None?);
      }
    }
  }

  /**
   * Login writes USER, PASS and TYPE I in that order and no other line; a
   * line only if the codes read begin with 220 and the codes the lines before
   * it need; it succeeds exactly when the replies read were 220, 331, 230 and
   * 200, and then holds the connection it dialed. The order of its events is
   * LoginOrder's.
   */
  lemma LoginTrace(s: Session, addr: string, user: string, password: string)
    ensures var l := LoginSpec(s, addr, user, password); var e := Added(s, l.session);
      var lines := ["USER " + user, "PASS " + password, "TYPE I"];
      var codes := [StatusServiceReadyForNewUser, StatusNeedPassword, StatusUserLoggedIn, StatusCommandOK];
      s.trace <= l.session.trace &&
      |Sent(e)| <= 3 && Sent(e) == lines[..|Sent(e)|] &&
      codes[..|Sent(e)|] <= Codes(e) &&
      (l.value.None? <==> Codes(e) == codes) &&
      (l.value.None? ==> Sent(e) == lines && l.session.conn == Some(s.dialed)) &&
      (l.session.conn == s.conn || l.session.conn == Some(s.dialed)) &&
      ControlDials(e) <= 1 && DataDials(e) == 0
  {
    var o := OpenSpec(s, addr);
    OpenTrace(s, addr);
    OpenConn(s, addr);
    var eo := Added(s, o.session);
    var codes := [StatusServiceReadyForNewUser, StatusNeedPassword, StatusUserLoggedIn, StatusCommandOK];
    if o.value.None? {
      var steps := LoginSteps(user, password);
      var r := RunSpec(o.session, steps);
      RunTrace(o.session, steps);
      AddedChain(s, o.session, r.session);
      LoginLines(user, password);
      GreetedRun(eo, Added(o.session, r.session), steps, r.value.None?);
      assert LoginSpec(s, addr, user, password) == r;
      assert codes == [StatusServiceReadyForNewUser] + Needs(steps);
    } else {
      assert LoginSpec(s, addr, user, password) == o;
      assert |Codes(eo)| <= 1 < |codes|;
    }
  }

  /** The events of a greeting with code 220 followed by a run of steps. */
  lemma GreetedRun(eo: seq<Event>, er: seq<Event>, steps: seq<Step>, ok: bool)
    requires Sent(eo) == [] && Codes(eo) == [StatusServiceReadyForNewUser]
    requires ControlDials(eo) <= 1 && DataDials(eo) == 0
    requires ControlDials(er) == 0 && DataDials(er) == 0 && RunObserved(er, steps, ok)
    ensures var e := eo + er; var codes := [StatusServiceReadyForNewUser] + Needs(steps);
      |Sent(e)| <= |steps| && Sent(e) == Texts(steps)[..|Sent(e)|] &&
      codes[..|Sent(e)|] <= Codes(e) &&
      (ok <==> Codes(e) == codes) && (ok ==> Sent(e) == Texts(steps)) &&
      ControlDials(e) <= 1 && DataDials(e) == 0
  {
    Tally(eo, er);
    var codes := [StatusServiceReadyForNewUser] + Needs(steps);
    assert Codes(er) == Codes(eo + er)[1..];
    assert codes[1..] == Needs(steps);
    var n := |Sent(er)|;
    if n > 0 {
      assert codes[..n] == [StatusServiceReadyForNewUser] + Needs(steps)[..n - 1];
    }
  }

  lemma LoginLines(user: string, password: string)
    ensures Texts(LoginSteps(user, password)) == ["USER " + user, "PASS " + password, "TYPE I"]
    ensures Needs(LoginSteps(user, password)) == [StatusNeedPassword, StatusUserLoggedIn, StatusCommandOK]
  {
    var steps := LoginSteps(user, password);
    StepsCons(steps[2], []);
    assert [steps[2]] + [] == [steps[2]];
    StepsCons(steps[1], [steps[2]]);
    assert [steps[1]] + [steps[2]] == [steps[1], steps[2]];
    StepsCons(steps[0], [steps[1], steps[2]]);
    assert [steps[0]] + [steps[1], steps[2]] == steps;
  }

  /** passiveMode writes PASV alone, and yields an address only from a 227 reply. */
  lemma PassiveTrace(s: Session)
    ensures var p := PassiveSpec(s); var e := Added(s, p.session);
      s.trace <= p.session.trace && p.session.conn == s.conn &&
      Sent(e) == ["PASV"] && DataDials(e) == 0 && DataCloses(e) == 0 && Payloads(e) == [] &&
      (p.value.Ok? ==> Codes(e) == [StatusEnteringPassiveMode])
  {
    CmdTrace(s, "PASV");
    var c := CmdSpec(s, "PASV");
    if c.value.Ok? {
      assert PassiveSpec(s).value == ParsePasv(c.value.value.code, c.value.value.msg);
    }
  }

  /**
   * The transfer writes its line, reads the data connection only if the
   * exchange went through, and always ends by closing the data connection
   * and reading one more reply.
   */
  lemma TransferTrace(s: Session, text: string)
    ensures var t := TransferSpec(s, text); var e := Added(s, t.session);
      s.trace <= t.session.trace && t.session.conn == s.conn &&
      Sent(e) == [text] && DataDials(e) == 0 && DataCloses(e) == 1 &&
      |e| >= 3 && e[|e| - 2].CloseData? && e[|e| - 1].Recv? &&
      (t.value.Ok? ==> Payloads(e) == [t.value.value]) &&
      (t.value.Err? ==> Payloads(e) == [])
  {
    var f := FetchSpec(s, text);
    FetchTrace(s, text);
    var m := f.session;
    CleanupTrace(m);
    AddedChain(s, m, CleanupSpec(m));
    TransferObs(Added(s, m), Added(m, CleanupSpec(m)), text, if f.value.Ok? then [f.value.value] else []);
  }

  /**
   * The exchange and the read, counted apart from their order: the command
   * is written once, no data connection is opened or closed, and the data
   * returned is exactly what was read. The order of its events is FetchOrder's.
   */
  lemma FetchTrace(s: Session, text: string)
    ensures var f := FetchSpec(s, text); var e := Added(s, f.session);
      s.trace <= f.session.trace && f.session.conn == s.conn &&
      |e| >= 1 && Sent(e) == [text] && DataDials(e) == 0 && DataCloses(e) == 0 &&
      Payloads(e) == (if f.value.Ok? then [f.value.value] else [])
  {
    var c := CmdSpec(s, text);
    CmdTrace(s, text);
    var ec := Added(s, c.session);
    if c.value.Ok? {
      var d := ReadDataOn(c.session);
      AddedIs(c.session, d.session, [ReadData(d.value)]);
      AddedChain(s, c.session, d.session);
      ReadObs(ec, d.value, text);
      assert FetchSpec(s, text) == After(d.session, if d.value.Some? then Ok(d.value.value) else Err(TransferFailed));
    }
  }

  /** The command exchange followed by one read of the data connection. */
  lemma ReadObs(ec: seq<Event>, payload: Option<string>, text: string)
    requires |ec| >= 1 && Sent(ec) == [text] && DataDials(ec) == 0 && DataCloses(ec) == 0 && Payloads(ec) == []
    ensures var e := ec + [ReadData(payload)];
      |e| >= 1 && Sent(e) == [text] && DataDials(e) == 0 && DataCloses(e) == 0 &&
      Payloads(e) == (if payload.Some? then [payload.value] else [])
  {
    Single(ReadData(payload));
    Tally(ec, [ReadData(payload)]);
  }

  /** The deferred clean-up: close the data connection, then read one control reply. */
  lemma CleanupTrace(m: Session)
    ensures var e := Added(m, CleanupSpec(m));
      m.trace <= CleanupSpec(m).trace && CleanupSpec(m).conn == m.conn &&
      |e| == 2 && e[0].CloseData? && e[1].Recv? &&
      Sent(e) == [] && DataDials(e) == 0 && DataCloses(e) == 1 && Payloads(e) == []
  {
    var cl := CloseDataOn(m);
    var g := RecvOn(cl.session);
    AddedIs(m, g.session, [CloseData(cl.value)] + [Recv(g.value)]);
    Single(CloseData(cl.value));
    Single(Recv(g.value));
    Tally([CloseData(cl.value)], [Recv(g.value)]);
  }

  lemma TransferObs(ef: seq<Event>, tail: seq<Event>, text: string, payload: seq<string>)
    requires |ef| >= 1 && Sent(ef) == [text] && DataDials(ef) == 0 && DataCloses(ef) == 0 && Payloads(ef) == payload
    requires |tail| == 2 && tail[0].CloseData? && tail[1].Recv?
    requires Sent(tail) == [] && DataDials(tail) == 0 && DataCloses(tail) == 1 && Payloads(tail) == []
    ensures var e := ef + tail;
      Sent(e) == [text] && DataDials(e) == 0 && DataCloses(e) == 1 && Payloads(e) == payload &&
      |e| >= 3 && e[|e| - 2].CloseData? && e[|e| - 1].Recv?
  {
    Tally(ef, tail);
  }

  /**
   * What DataCmd shows in its events, counted apart from their order: it
   * writes PASV and, exactly when the data connection came up, its own line;
   * it opens at most one data connection, and only when the first reply it
   * read was 227; it closes every data connection it opened as its last
   * action but one, and returns as data only what it read from that
   * connection. The order of its events is DataCmdOrder's.
   */
  ghost predicate DataCmdObserved(e: seq<Event>, text: string, r: Result<string, Error>)
  {
    DataDials(e) <= 1 && DataCloses(e) == DataDials(e) &&
    Sent(e) == (if DataDials(e) == 1 then ["PASV", text] else ["PASV"]) &&
    (DataDials(e) == 1 ==> |Codes(e)| >= 1 && Codes(e)[0] == StatusEnteringPassiveMode) &&
    (DataDials(e) == 1 ==> |e| >= 2 && e[|e| - 2].CloseData? && e[|e| - 1].Recv?) &&
    (r.Ok? ==> DataDials(e) == 1 && Payloads(e) == [r.value]) &&
    (r.Err? ==> Payloads(e) == [])
  }

  /** The same after the PASV exchange, counted apart from their order (ConnectOrder gives the order): the transfer exactly when the dial worked. */
  ghost predicate ConnectObserved(e: seq<Event>, text: string, r: Result<string, Error>)
  {
    DataDials(e) <= 1 && DataCloses(e) == DataDials(e) &&
    Sent(e) == (if DataDials(e) == 1 then [text] else []) &&
    (DataDials(e) == 1 ==> |e| >= 2 && e[|e| - 2].CloseData? && e[|e| - 1].Recv?) &&
    (r.Ok? ==> DataDials(e) == 1 && Payloads(e) == [r.value]) &&
    (r.Err? ==> Payloads(e) == [])
  }

  /** DataCmd behaves as DataCmdObserved says and keeps the control connection. */
  lemma DataCmdTrace(s: Session, text: string)
    ensures var d := DataCmdSpec(s, text);
      s.trace <= d.session.trace && d.session.conn == s.conn &&
      DataCmdObserved(Added(s, d.session), text, d.value)
  {
    var p := PassiveSpec(s);
    PassiveTrace(s);
    var ep := Added(s, p.session);
    if p.value.Err? {
      PassiveOnlyObs(ep, text, Err(p.value.error));
    } else {
      var c := ConnectSpec(p.session, p.value.value, text);
      ConnectTrace(p.session, p.value.value, text);
      AddedChain(s, p.session, c.session);
      DataObs(ep, Added(p.session, c.session), text, c.value);
    }
  }

  /** A PASV exchange that failed is all DataCmd does. */
  lemma PassiveOnlyObs(ep: seq<Event>, text: string, r: Result<string, Error>)
    requires Sent(ep) == ["PASV"] && DataDials(ep) == 0 && DataCloses(ep) == 0 && Payloads(ep) == []
    requires r.Err?
    ensures DataCmdObserved(ep, text, r)
  {
  }

  /** The data dial, and the transfer exactly when the dial worked. */
  lemma ConnectTrace(s: Session, addr: string, text: string)
    ensures var c := ConnectSpec(s, addr, text);
      s.trace <= c.session.trace && c.session.conn == s.conn &&
      ConnectObserved(Added(s, c.session), text, c.value)
  {
    var d := DialDataOn(s, addr);
    var x := DialData(addr, d.value);
    AddedIs(s, d.session, [x]);
    Single(x);
    if d.value {
      var t := TransferSpec(d.session, text);
      TransferTrace(d.session, text);
      AddedChain(s, d.session, t.session);
      DialObs(x, Added(d.session, t.session), text, t.value);
    }
  }

  /** A data dial that worked, followed by the transfer. */
  lemma DialObs(x: Event, et: seq<Event>, text: string, r: Result<string, Error>)
    requires x.DialData? && x.ok
    requires Sent(et) == [text] && DataDials(et) == 0 && DataCloses(et) == 1
    requires r.Ok? ==> Payloads(et) == [r.value]
    requires r.Err? ==> Payloads(et) == []
    requires |et| >= 3 && et[|et| - 2].CloseData? && et[|et| - 1].Recv?
    ensures ConnectObserved([x] + et, text, r)
  {
    var e := [x] + et;
    Single(x);
    Tally([x], et);
    assert Sent(e) == [text] && DataDials(e) == 1 && DataCloses(e) == 1 && Payloads(e) == Payloads(et);
    assert e[|e| - 2] == et[|et| - 2] && e[|e| - 1] == et[|et| - 1];
  }

  /** The PASV exchange that got 227, followed by the rest of DataCmd. */
  lemma DataObs(ep: seq<Event>, ec: seq<Event>, text: string, r: Result<string, Error>)
    requires Sent(ep) == ["PASV"] && Codes(ep) == [StatusEnteringPassiveMode]
    requires DataDials(ep) == 0 && DataCloses(ep) == 0 && Payloads(ep) == []
    requires ConnectObserved(ec, text, r)
    ensures DataCmdObserved(ep + ec, text, r)
  {
    Tally(ep, ec);
  }

  // ---------------------------------------------------------------------------
  // The order of writes and data reads

  /** Cmd writes its line first, dials and reads no data connection, and on success is exactly the write and one reply. */
  lemma CmdOrder(s: Session, text: string)
    ensures var c := CmdSpec(s, text); var e := Added(s, c.session);
      s.trace <= c.session.trace && NoRead(e) && NoDial(e) && |e| >= 1 && e[0] == Send(text, e[0].ok) &&
      (c.value.Ok? ==> e == [Send(text, true), Recv(Some(c.value.value))])
  {
    var w := SendOn(s, text);
    if !w.value {
      AddedIs(s, w.session, [Send(text, false)]);
    } else {
      var g := RecvOn(w.session);
      AddedIs(s, g.session, [Send(text, true), Recv(g.value)]);
    }
  }

  /**
   * passiveMode dials and reads no data connection, and an address comes
   * from exactly one write of PASV that went through and one 227 reply whose
   * text parses to that address.
   */
  lemma PassiveOrder(s: Session)
    ensures var p := PassiveSpec(s); var e := Added(s, p.session);
      s.trace <= p.session.trace && NoRead(e) && NoDial(e) &&
      (p.value.Ok? ==> (|e| == 2 && e[0] == Send("PASV", true) && e[1].Recv? && e[1].reply.Some? &&
                        e[1].reply.value.code == StatusEnteringPassiveMode &&
                        ParsePasv(e[1].reply.value.code, e[1].reply.value.msg) == p.value))
  {
    CmdOrder(s, "PASV");
    var c := CmdSpec(s, "PASV");
    if c.value.Ok? {
      assert PassiveSpec(s).value == ParsePasv(c.value.value.code, c.value.value.msg);
    }
  }

  /**
   * A run of steps writes each line only after the reply to the line before
   * it was read and carried the code that step needs, and stops right after
   * the first exchange that fails.
   */
  lemma {:induction false} RunOrder(s: Session, steps: seq<Step>)
    ensures var r := RunSpec(s, steps);
      s.trace <= r.session.trace && Exchanges(Added(s, r.session), steps)
    decreases |steps|
  {
    if steps == [] {
      AddedIs(s, s, []);
    } else {
      var st := steps[0];
      var c := CmdSpec(s, st.text);
      var w := SendOn(s, st.text);
      if !w.value {
        AddedIs(s, w.session, [Send(st.text, false)]);
        assert RunSpec(s, steps).session == w.session;
      } else {
        var g := RecvOn(w.session);
        var ec := [Send(st.text, true), Recv(g.value)];
        AddedIs(s, g.session, ec);
        if g.value.Some? && g.value.value.code == st.needs {
          var r := RunSpec(c.session, steps[1..]);
          RunOrder(c.session, steps[1..]);
          AddedChain(s, c.session, r.session);
          assert RunSpec(s, steps) == r;
          assert (ec + Added(c.session, r.session))[2..] == Added(c.session, r.session);
        } else {
          assert RunSpec(s, steps).session == g.session;
        }
      }
    }
  }

  /** When open works, its last event is reading a 220 greeting. */
  lemma OpenGreeting(s: Session, addr: string)
    ensures var o := OpenSpec(s, addr); var eo := Added(s, o.session);
      s.trace <= o.session.trace &&
      (o.value.None? ==> (|eo| >= 1 && eo[|eo| - 1].Recv? && eo[|eo| - 1].reply.Some? &&
                          eo[|eo| - 1].reply.value.code == StatusServiceReadyForNewUser))
  {
    if s.conn.Some? {
      var c := CloseControlOn(s);
      if !c.value {
        assert OpenSpec(s, addr) == After(c.session, Some(CloseFailed));
      } else {
        assert OpenSpec(s, addr) == DialSpec(c.session, addr);
        DialGreeting(s, c.session, addr);
      }
    } else {
      assert OpenSpec(s, addr) == DialSpec(s, addr);
      DialGreeting(s, s, addr);
    }
  }

  /**
   * When the dial of open and its greeting work, the last event since `b` is
   * reading a 220 greeting.
   */
  lemma DialGreeting(b: Session, s: Session, addr: string)
    requires b.trace <= s.trace
    ensures var d := DialSpec(s, addr); var e := Added(b, d.session);
      b.trace <= d.session.trace &&
      (d.value.None? ==> (|e| >= 1 && e[|e| - 1].Recv? && e[|e| - 1].reply.Some? &&
                          e[|e| - 1].reply.value.code == StatusServiceReadyForNewUser))
  {
    var w := DialControlOn(s, addr);
    if !w.value {
      assert DialSpec(s, addr).session == w.session;
    } else {
      var g := RecvOn(w.session);
      assert DialSpec(s, addr).session.trace == g.session.trace;
      assert Added(b, g.session)[|Added(b, g.session)| - 1] == Recv(g.value);
    }
  }

  /**
   * Login writes no line before the greeting. When open worked, its events
   * end with reading a 220 greeting, and USER, PASS and TYPE I follow as
   * exchanges, PASS written only after USER was answered 331 and TYPE I only
   * after PASS was answered 230; when open failed, nothing follows it.
   */
  lemma LoginOrder(s: Session, addr: string, user: string, password: string)
    ensures var o := OpenSpec(s, addr); var l := LoginSpec(s, addr, user, password);
      var eo := Added(s, o.session); var e := Added(s, l.session);
      s.trace <= o.session.trace && o.session.trace <= l.session.trace && eo <= e && Sent(eo) == [] &&
      (o.value.Some? ==> e == eo) &&
      (o.value.None? ==> (|eo| >= 1 && eo[|eo| - 1].Recv? && eo[|eo| - 1].reply.Some? &&
                          eo[|eo| - 1].reply.value.code == StatusServiceReadyForNewUser &&
                          Exchanges(e[|eo|..], LoginSteps(user, password))))
  {
    var o := OpenSpec(s, addr);
    OpenGreeting(s, addr);
    OpenTrace(s, addr);
    if o.value.None? {
      var r := RunSpec(o.session, LoginSteps(user, password));
      RunOrder(o.session, LoginSteps(user, password));
      AddedChain(s, o.session, r.session);
      assert LoginSpec(s, addr, user, password) == r;
      assert (Added(s, o.session) + Added(o.session, r.session))[|Added(s, o.session)|..] == Added(o.session, r.session);
    } else {
      assert LoginSpec(s, addr, user, password) == o;
    }
  }

  /** The command is written before the data connection is read, and nothing is read after a failed exchange. */
  lemma FetchOrder(s: Session, text: string)
    ensures var f := FetchSpec(s, text); var e := Added(s, f.session);
      s.trace <= f.session.trace && ReadAfterWrite(e, 0, text) && NoDial(e)
  {
    var c := CmdSpec(s, text);
    CmdOrder(s, text);
    if c.value.Ok? {
      var d := ReadDataOn(c.session);
      AddedIs(c.session, d.session, [ReadData(d.value)]);
      AddedChain(s, c.session, d.session);
      assert Added(s, d.session) == [Send(text, true), Recv(Some(c.value.value)), ReadData(d.value)];
    }
  }

  /** The deferred clean-up dials and reads no data connection, so the transfer keeps the order of its fetch. */
  lemma TransferOrder(s: Session, text: string)
    ensures var t := TransferSpec(s, text); var e := Added(s, t.session);
      s.trace <= t.session.trace && ReadAfterWrite(e, 0, text) && NoDial(e)
  {
    var m := FetchSpec(s, text).session;
    FetchOrder(s, text);
    CleanupTrace(m);
    AddedChain(s, m, CleanupSpec(m));
    ReadAfterWriteThen(Added(s, m), Added(m, CleanupSpec(m)), 0, text);
    NoDialThen(Added(s, m), Added(m, CleanupSpec(m)));
  }

  /** Events that dial no data connection, one after the other, dial none. */
  lemma NoDialThen(a: seq<Event>, b: seq<Event>)
    requires NoDial(a) && NoDial(b)
    ensures NoDial(a + b)
  {
    forall i | 0 <= i < |a + b|
      ensures !(a + b)[i].DialData?
    {
      if i >= |a| {
        assert (a + b)[i] == b[i - |a|];
      }
    }
  }

  /**
   * After the server named its data address: the first event is the one dial
   * of that address, a failed dial ends DataCmd, and after a dial that worked
   * the command is the next event and any data read comes right after its
   * reply; without a working dial nothing is read.
   */
  lemma ConnectOrder(s: Session, addr: string, text: string)
    ensures var c := ConnectSpec(s, addr, text); var e := Added(s, c.session);
      s.trace <= c.session.trace && DialFirst(e, addr) &&
      (DataDials(e) == 1 ==> ReadAfterWrite(e, 1, text)) && (DataDials(e) != 1 ==> NoRead(e))
  {
    var d := DialDataOn(s, addr);
    var x := DialData(addr, d.value);
    AddedIs(s, d.session, [x]);
    Single(x);
    if d.value {
      var t := TransferSpec(d.session, text);
      TransferOrder(d.session, text);
      TransferTrace(d.session, text);
      AddedChain(s, d.session, t.session);
      DialOrder(x, Added(d.session, t.session), text);
      DialThenNone(x, Added(d.session, t.session), addr);
    }
  }

  /** A dial of `addr` that worked, followed by events that dial nothing. */
  lemma DialThenNone(x: Event, et: seq<Event>, addr: string)
    requires x == DialData(addr, true) && NoDial(et)
    ensures DialFirst([x] + et, addr)
  {
    forall i | 1 <= i < |[x] + et|
      ensures !([x] + et)[i].DialData?
    {
      assert ([x] + et)[i] == et[i - 1];
    }
  }

  /** A data dial that worked, followed by a transfer that keeps the order. */
  lemma DialOrder(x: Event, et: seq<Event>, text: string)
    requires x.DialData? && x.ok && DataDials(et) == 0 && ReadAfterWrite(et, 0, text)
    ensures DataDials([x] + et) == 1 && ReadAfterWrite([x] + et, 1, text)
  {
    Single(x);
    TallyDataDials([x], et);
    ReadAfterWriteBehind([x], et, 0, text);
  }

  /**
   * DataCmd dials only after PASV was answered 227, as the third event and
   * at the address parsed from that reply, and writes its line before it
   * reads any data: when it opened a data connection, its line is the fourth
   * event, after PASV, the reply and the dial, and the only data read comes
   * right after that line was answered; when it opened none, it read no data
   * at all.
   */
  lemma DataCmdOrder(s: Session, text: string)
    ensures var d := DataCmdSpec(s, text); var e := Added(s, d.session);
      s.trace <= d.session.trace && DialAfterPasv(e) && DialsParsed(e) &&
      (DataDials(e) == 1 ==> ReadAfterWrite(e, 3, text)) && (DataDials(e) != 1 ==> NoRead(e))
  {
    var p := PassiveSpec(s);
    PassiveOrder(s);
    PassiveTrace(s);
    var ep := Added(s, p.session);
    if p.value.Ok? {
      var c := ConnectSpec(p.session, p.value.value, text);
      ConnectOrder(p.session, p.value.value, text);
      AddedChain(s, p.session, c.session);
      var ec := Added(p.session, c.session);
      TallyDataDials(ep, ec);
      DataOrder(ep, ec, text, DataDials(ec) == 1);
      DialPlace(ep[1].reply.value, ec, p.value.value);
      assert AddressFrom(ep[1], ec[0]);
      AddressCarried(ep, ec);
    } else {
      assert DataCmdSpec(s, text).session == p.session;
    }
  }

  /** The dial that follows the PASV exchange goes to the address parsed from its reply. */
  lemma AddressCarried(ep: seq<Event>, ec: seq<Event>)
    requires |ep| == 2 && |ec| >= 1 && AddressFrom(ep[1], ec[0])
    ensures DialsParsed(ep + ec)
  {
    assert (ep + ec)[1] == ep[1] && (ep + ec)[2] == ec[0];
  }

  /** A PASV exchange answered 227, followed by events whose one dial comes first. */
  lemma DialPlace(reply: Reply, ec: seq<Event>, addr: string)
    requires reply.code == StatusEnteringPassiveMode
    requires DialFirst(ec, addr)
    ensures DialAfterPasv([Send("PASV", true), Recv(Some(reply))] + ec)
  {
    var e := [Send("PASV", true), Recv(Some(reply))] + ec;
    assert e[1] == Recv(Some(reply)) && e[2] == ec[0];
    forall i | 0 <= i < |e| && e[i].DialData?
      ensures i == 2
    {
      if i >= 2 {
        assert e[i] == ec[i - 2];
      }
    }
  }


  /** The order of writes and data reads survives putting the two-event PASV exchange first. */
  lemma DataOrder(ep: seq<Event>, ec: seq<Event>, text: string, dialed: bool)
    requires NoRead(ep) && |ep| == 2
    requires dialed ==> ReadAfterWrite(ec, 1, text)
    requires !dialed ==> NoRead(ec)
    ensures dialed ==> ReadAfterWrite(ep + ec, 3, text)
    ensures !dialed ==> NoRead(ep + ec)
  {
    if dialed {
      ReadAfterWriteBehind(ep, ec, 1, text);
    }
  }

  /**
   * Close with no connection held does nothing; with one, it writes QUIT and
   * then closes the control connection, and keeps `conn`, so a second Close
   * writes QUIT again.
   */
  lemma CloseTrace(s: Session)
    ensures s.conn.None? ==> CloseSpec(s) == s
    ensures var c := CloseSpec(s); var e := Added(s, c);
      s.trace <= c.trace && c.conn == s.conn &&
      (s.conn.Some? ==> Sent(e) == ["QUIT"] && |e| >= 2 && e[|e| - 1].CloseControl? && |Codes(e)| <= 1)
  {
    if s.conn.Some? {
      var q := CmdSpec(s, "QUIT");
      CmdTrace(s, "QUIT");
      var eq := Added(s, q.session);
      var cc := CloseControlOn(q.session);
      AddedIs(q.session, cc.session, [CloseControl(cc.value)]);
      AddedChain(s, q.session, cc.session);
      Tally(eq, [CloseControl(cc.value)]);
      assert |eq| >= 1;
    }
  }

  /** Close is not idempotent: called twice with a connection held, it writes QUIT twice. */
  lemma CloseTwice(s: Session)
    requires s.conn.Some?
    ensures var c2 := CloseSpec(CloseSpec(s));
      s.trace <= c2.trace && Sent(Added(s, c2)) == ["QUIT", "QUIT"]
  {
    var c1 := CloseSpec(s);
    CloseTrace(s);
    CloseTrace(c1);
    AddedChain(s, c1, CloseSpec(c1));
    Tally(Added(s, c1), Added(c1, CloseSpec(c1)));
  }
}
