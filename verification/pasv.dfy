/**
 * The parse that turns the reply to PASV (section 4.1.2 of RFC 959; reply 227 in
 * section 4.2.2) into an address the data connection can be dialed at. It is the
 * pure half of the client's `passiveMode`, a function of the reply's code and text.
 */
module Pasv {
  import opened Wrappers
  import opened GoStrings
  import opened Protocol

  /**
   * The address announced by a PASV reply: take the text between the last `(`
   * and the last `)`, split it on `,`, require six fields, read fields five and
   * six as decimal integers, and join fields one to four with `.` as the host
   * and `p1*256+p2` (in Go's 64-bit int arithmetic) as the port. Fields one to
   * four are not checked. A `)` missing from or ahead of the slice start is a
   * slice out of range, which Go turns into a panic.
   */
  function ParsePasv(code: int, msg: string): (r: Result<string, Error>)
    ensures code != StatusEnteringPassiveMode ==> r == Err(Rejected("PASV", Reply(code, msg)))
    ensures r.Err? ==> r.error.Rejected? || r.error.PasvSlicePanic? || r.error.PasvMalformed? || r.error.PasvPortMalformed?
  {
    if code != StatusEnteringPassiveMode then Err(Rejected("PASV", Reply(code, msg)))
    else
      match AddressGroup(msg)
      case Err(e) => Err(e)
      case Ok(group) => GroupAddress(msg, group)
  }

  /** `msg[LastIndex(msg, "(")+1 : LastIndex(msg, ")")]`, or the panic that slice raises. */
  function AddressGroup(msg: string): (r: Result<string, Error>)
    ensures r.Err? <==> ')' !in msg[LastIndexOf(msg, '(') + 1..]
    ensures r.Err? ==> r == Err(PasvSlicePanic(msg))
    ensures r.Ok? ==> (r.value <= msg[LastIndexOf(msg, '(') + 1..] && '(' !in r.value &&
      LastIndexOf(msg, '(') + 1 + |r.value| == LastIndexOf(msg, ')'))
  {
    var lo := LastIndexOf(msg, '(') + 1;
    var hi := LastIndexOf(msg, ')');
    SliceBounds(msg, lo, hi);
    if hi < lo then Err(PasvSlicePanic(msg))
    else
      var group := msg[lo..hi];
      assert group <= msg[lo..] && lo + |group| == hi;
      Ok(group)
  }

  /** The slice bounds: the end comes before the start exactly when no `)` follows the start. */
  lemma SliceBounds(msg: string, lo: int, hi: int)
    requires lo == LastIndexOf(msg, '(') + 1 && hi == LastIndexOf(msg, ')')
    ensures hi < lo <==> ')' !in msg[lo..]
    ensures lo <= hi ==> '(' !in msg[lo..hi]
  {
    if hi < lo {
      forall j | lo <= j < |msg| ensures msg[j] != ')' {
        if hi >= 0 {
          assert msg[j] == msg[hi + 1..][j - hi - 1];
        } else {
          assert msg[j] in msg;
        }
      }
    } else {
      assert msg[lo..][hi - lo] == ')';
      forall j | lo <= j < hi ensures msg[j] != '(' {
        if lo > 0 {
          assert msg[j] == msg[lo..][j - lo];
        } else {
          assert msg[j] in msg;
        }
      }
    }
  }

  /** Six comma fields to `host:port`; `msg` is the whole reply text, kept for the error. */
  function GroupAddress(msg: string, group: string): (r: Result<string, Error>)
    ensures multiset(group)[','] != 5 <==> r == Err(PasvMalformed(msg))
    ensures r.Err? ==> r.error.PasvMalformed? || r.error == PasvPortMalformed(msg)
  {
    var hp := Split(group, ',');
    if |hp| != 6 then Err(PasvMalformed(msg)) else FieldsAddress(msg, hp)
  }

  /**
   * The slice is out of range (Go panics) exactly when some point of the
   * message, its start or just after a `(`, has no `)` anywhere after it.
   */
  lemma PasvPanicIff(msg: string)
    ensures (ParsePasv(StatusEnteringPassiveMode, msg) == Err(PasvSlicePanic(msg))) <==>
            (exists i :: 0 <= i <= |msg| && (i == 0 || msg[i - 1] == '(') && ')' !in msg[i..])
  {
    var lo := LastIndexOf(msg, '(') + 1;
    var hi := LastIndexOf(msg, ')');
    if hi < lo {
      assert lo == 0 || msg[lo - 1] == '(';
      assert ')' !in msg[lo..];
    } else {
      forall i | 0 <= i <= |msg| && (i == 0 || msg[i - 1] == '(')
        ensures ')' in msg[i..]
      {
        assert i <= lo;
        assert msg[i..][hi - i] == ')';
      }
    }
  }

  /** Where the last `(` and the last `)` fall in a message built around a group. */
  lemma GroupBounds(pre: string, inner: string, post: string)
    requires '(' !in inner && '(' !in post && ')' !in post
    ensures var msg := pre + "(" + inner + ")" + post;
      LastIndexOf(msg, '(') == |pre| && LastIndexOf(msg, ')') == |pre| + 1 + |inner| &&
      msg[|pre| + 1..|pre| + 1 + |inner|] == inner
  {
    var msg := pre + "(" + inner + ")" + post;
    assert msg[|pre| + 1..] == inner + ")" + post;
    assert msg[|pre| + 2 + |inner|..] == post;
    LastIndexAt(msg, '(', |pre|);
    LastIndexAt(msg, ')', |pre| + 1 + |inner|);
  }

  /** The group between the parentheses is what the slice takes. */
  lemma GroupOf(pre: string, inner: string, post: string)
    requires '(' !in inner && '(' !in post && ')' !in post
    ensures AddressGroup(pre + "(" + inner + ")" + post) == Ok(inner)
  {
    var msg := pre + "(" + inner + ")" + post;
    GroupBounds(pre, inner, post);
    var lo, hi := LastIndexOf(msg, '(') + 1, LastIndexOf(msg, ')');
    assert lo == |pre| + 1 && hi == |pre| + 1 + |inner|;
    assert msg[lo..hi] == inner;
  }

  /**
   * With the group found, the reply is malformed exactly when the group does
   * not hold five commas, that is, does not split into six fields.
   */
  lemma PasvFieldCount(pre: string, inner: string, post: string)
    requires '(' !in inner && '(' !in post && ')' !in post
    ensures var msg := pre + "(" + inner + ")" + post;
      (ParsePasv(StatusEnteringPassiveMode, msg) == Err(PasvMalformed(msg))) <==> (multiset(inner)[','] != 5)
  {
    GroupOf(pre, inner, post);
  }

  /**
   * A group of six fields gives the host as the first four fields joined with
   * `.`, unvalidated, and the port `p1*256+p2` from the last two; a last or
   * next-to-last field that is not a decimal integer is a port error.
   */
  lemma PasvFields(pre: string, fields: seq<string>, post: string)
    requires |fields| == 6
    requires forall i :: 0 <= i < 6 ==> ',' !in fields[i] && '(' !in fields[i]
    requires '(' !in post && ')' !in post
    ensures var msg := pre + "(" + Join(fields, ',') + ")" + post;
      ParsePasv(StatusEnteringPassiveMode, msg) == FieldsAddress(msg, fields)
  {
    var inner := Join(fields, ',');
    var msg := pre + "(" + inner + ")" + post;
    JoinNoOpenParen(fields);
    GroupOf(pre, inner, post);
    SplitJoin(fields, ',');
    assert GroupAddress(msg, inner) == FieldsAddress(msg, fields);
  }

  /** What six split fields stand for, as the client reads them. */
  function FieldsAddress(msg: string, fields: seq<string>): (r: Result<string, Error>)
    requires |fields| == 6
    ensures r.Ok? <==> Atoi(fields[4]).Some? && Atoi(fields[5]).Some?
    ensures r.Err? ==> r.error == PasvPortMalformed(msg)
  {
    match (Atoi(fields[4]), Atoi(fields[5]))
    case (Some(p1), Some(p2)) =>
      Ok(JoinHostPort(Join(fields[..4], '.'), Itoa(Wrap64(p1 * 256 + p2))))
    case _ => Err(PasvPortMalformed(msg))
  }

  /**
   * The address read from six fields splits back at its last `:` into the
   * first four fields joined with `.` (bracketed when they hold a `:`) and a
   * port that reads back as `p1*256+p2` in Go's 64-bit arithmetic.
   */
  lemma AddressSplits(msg: string, fields: seq<string>, p1: int, p2: int)
    requires |fields| == 6 && Atoi(fields[4]) == Some(p1) && Atoi(fields[5]) == Some(p2)
    ensures FieldsAddress(msg, fields).Ok?
    ensures var a := FieldsAddress(msg, fields).value; var k := LastIndexOf(a, ':');
      var host := Join(fields[..4], '.');
      0 <= k && a[..k] == (if ':' in host then "[" + host + "]" else host) &&
      Atoi(a[k + 1..]) == Some(Wrap64(p1 * 256 + p2))
  {
    var host, port := Join(fields[..4], '.'), Wrap64(p1 * 256 + p2);
    assert FieldsAddress(msg, fields) == Ok(JoinHostPort(host, Itoa(port))) by {
      FieldsAddressOk(msg, fields, p1, p2);
    }
    HostPortSplits(host, port);
  }

  lemma FieldsAddressOk(msg: string, fields: seq<string>, p1: int, p2: int)
    requires |fields| == 6 && Atoi(fields[4]) == Some(p1) && Atoi(fields[5]) == Some(p2)
    ensures FieldsAddress(msg, fields) == Ok(JoinHostPort(Join(fields[..4], '.'), Itoa(Wrap64(p1 * 256 + p2))))
  {
    assert (Atoi(fields[4]), Atoi(fields[5])) == (Some(p1), Some(p2));
  }

  /** A host joined with a 64-bit port splits back at its last `:`, and the port reads back. */
  lemma HostPortSplits(host: string, port: int)
    requires MinInt64 <= port <= MaxInt64
    ensures var a := JoinHostPort(host, Itoa(port)); var k := LastIndexOf(a, ':');
      0 <= k && a[..k] == (if ':' in host then "[" + host + "]" else host) && Atoi(a[k + 1..]) == Some(port)
  {
    ItoaNoColon(port);
    JoinHostPortSplits(host, Itoa(port));
    AtoiItoa(port);
  }

  /** A decimal spelling holds no `:`. */
  lemma ItoaNoColon(n: int)
    ensures ':' !in Itoa(n)
  {
    var d := NatToDecimal(if n < 0 then -n else n);
    assert forall j :: 0 <= j < |d| ==> d[j] != ':';
    if n < 0 {
      assert Itoa(n) == "-" + d;
      assert forall j :: 1 <= j < |Itoa(n)| ==> Itoa(n)[j] == d[j - 1];
    }
  }

  /** Joining fields free of `(` with `,` adds none. */
  lemma {:induction false} JoinNoOpenParen(fields: seq<string>)
    requires forall i :: 0 <= i < |fields| ==> '(' !in fields[i]
    ensures '(' !in Join(fields, ',')
    decreases |fields|
  {
    if |fields| > 1 {
      JoinNoOpenParen(fields[1..]);
    }
  }

  /** Decimal octets, as a conforming server sends them, round-trip to `h1.h2.h3.h4:port`. */
  lemma PasvOctets(pre: string, h1: nat, h2: nat, h3: nat, h4: nat, p1: nat, p2: nat, post: string)
    requires h1 < 256 && h2 < 256 && h3 < 256 && h4 < 256 && p1 < 256 && p2 < 256
    requires '(' !in post && ')' !in post
    ensures var msg := pre + "(" + Join([Itoa(h1), Itoa(h2), Itoa(h3), Itoa(h4), Itoa(p1), Itoa(p2)], ',') + ")" + post;
      ParsePasv(StatusEnteringPassiveMode, msg) ==
        Ok(Itoa(h1) + "." + Itoa(h2) + "." + Itoa(h3) + "." + Itoa(h4) + ":" + Itoa(p1 * 256 + p2))
  {
    var fields := [Itoa(h1), Itoa(h2), Itoa(h3), Itoa(h4), Itoa(p1), Itoa(p2)];
    var msg := pre + "(" + Join(fields, ',') + ")" + post;
    forall i | 0 <= i < 6
      ensures ',' !in fields[i] && '(' !in fields[i] && ')' !in fields[i]
    {
      DecimalPunctuationFree(fields[i]);
    }
    PasvFields(pre, fields, post);
    AtoiItoa(p1);
    AtoiItoa(p2);
    OctetsAddress(msg, Itoa(h1), Itoa(h2), Itoa(h3), Itoa(h4), Itoa(p1), Itoa(p2), p1, p2);
  }

  lemma OctetsAddress(msg: string, a: string, b: string, c: string, d: string, e: string, f: string, p1: int, p2: int)
    requires AllDigits(a) && AllDigits(b) && AllDigits(c) && AllDigits(d)
    requires Atoi(e) == Some(p1) && Atoi(f) == Some(p2)
    requires 0 <= p1 < 256 && 0 <= p2 < 256
    ensures FieldsAddress(msg, [a, b, c, d, e, f]) ==
      Ok(a + "." + b + "." + c + "." + d + ":" + Itoa(p1 * 256 + p2))
  {
    var fields := [a, b, c, d, e, f];
    var port := p1 * 256 + p2;
    Wrap64InRange(port);
    assert fields[..4] == [a, b, c, d];
    DottedHost(a, b, c, d);
    var host := Join(fields[..4], '.');
    assert FieldsAddress(msg, fields) == Ok(JoinHostPort(host, Itoa(port)));
  }

  /** Four digit strings joined with `.` spell a host that JoinHostPort leaves unbracketed. */
  lemma DottedHost(a: string, b: string, c: string, d: string)
    requires AllDigits(a) && AllDigits(b) && AllDigits(c) && AllDigits(d)
    ensures Join([a, b, c, d], '.') == a + "." + b + "." + c + "." + d
    ensures ':' !in Join([a, b, c, d], '.')
  {
    JoinFour(a, b, c, d, '.');
    DecimalPunctuationFree(a);
    DecimalPunctuationFree(b);
    DecimalPunctuationFree(c);
    DecimalPunctuationFree(d);
  }

  /** The decimal spelling of a natural number is digits only. */
  lemma DecimalPunctuationFree(s: string)
    requires AllDigits(s)
    ensures ',' !in s && '(' !in s && ')' !in s && ':' !in s
  {
  }

  lemma JoinFour(a: string, b: string, c: string, d: string, sep: char)
    ensures Join([a, b, c, d], sep) == a + [sep] + b + [sep] + c + [sep] + d
  {
    JoinCons(c, [d], sep);
    assert [c] + [d] == [c, d];
    JoinCons(b, [c, d], sep);
    assert [b] + [c, d] == [b, c, d];
    JoinCons(a, [b, c, d], sep);
    assert [a] + [b, c, d] == [a, b, c, d];
  }

  lemma JoinSix(a: string, b: string, c: string, d: string, e: string, f: string, sep: char)
    ensures Join([a, b, c, d, e, f], sep) == a + [sep] + b + [sep] + c + [sep] + d + [sep] + e + [sep] + f
  {
    JoinFour(c, d, e, f, sep);
    JoinCons(b, [c, d, e, f], sep);
    assert [b] + [c, d, e, f] == [b, c, d, e, f];
    JoinCons(a, [b, c, d, e, f], sep);
    assert [a] + [b, c, d, e, f] == [a, b, c, d, e, f];
  }

  /** A field in front of at least one more joins with one separator. */
  lemma JoinCons(f: string, rest: seq<string>, sep: char)
    requires |rest| >= 1
    ensures Join([f] + rest, sep) == f + [sep] + Join(rest, sep)
  {
    assert ([f] + rest)[1..] == rest;
  }

  /**
   * The worked example: whatever text comes first, `(127,0,0,1,19,136).`
   * announces host 127.0.0.1 and port 19*256+136 = 5000.
   */
  lemma PasvExample(pre: string)
    ensures ParsePasv(227, pre + "(127,0,0,1,19,136).") == Ok("127.0.0.1:5000")
  {
    PasvOctets(pre, 127, 0, 0, 1, 19, 136, ".");
    ExampleGroup();
    ExampleReply(pre, Join([Itoa(127), Itoa(0), Itoa(0), Itoa(1), Itoa(19), Itoa(136)], ','));
    ExampleAddress();
  }

  lemma ExampleReply(pre: string, group: string)
    requires group == "127,0,0,1,19,136"
    ensures pre + "(" + group + ")" + "." == pre + "(127,0,0,1,19,136)."
  {
    assert "(" + group + ")" + "." == "(127,0,0,1,19,136).";
    assert pre + "(" + group + ")" + "." == pre + ("(" + group + ")" + ".");
  }

  lemma ExampleAddress()
    ensures Itoa(127) + "." + Itoa(0) + "." + Itoa(0) + "." + Itoa(1) + ":" + Itoa(19 * 256 + 136)
      == "127.0.0.1:5000"
  {
    SmallDecimals();
    Decimal5000();
  }

  lemma ExampleGroup()
    ensures Join([Itoa(127), Itoa(0), Itoa(0), Itoa(1), Itoa(19), Itoa(136)], ',') == "127,0,0,1,19,136"
  {
    SmallDecimals();
    JoinSix("127", "0", "0", "1", "19", "136", ',');
  }

  /** Every decimal spelling past the first digit adds one digit. */
  lemma DecimalStep(n: nat, s: string)
    requires n >= 10 && NatToDecimal(n / 10) == s
    ensures NatToDecimal(n) == s + [DigitChar(n % 10)]
  {
  }

  lemma SmallDecimals()
    ensures Itoa(0) == "0" && Itoa(1) == "1" && Itoa(19) == "19"
    ensures Itoa(127) == "127" && Itoa(136) == "136"
  {
    assert NatToDecimal(1) == "1";
    DecimalStep(19, "1");
    DecimalStep(12, "1");
    DecimalStep(127, "12");
    DecimalStep(13, "1");
    DecimalStep(136, "13");
  }

  lemma Decimal5000()
    ensures Itoa(5000) == "5000"
  {
    assert NatToDecimal(5) == "5";
    DecimalStep(50, "5");
    DecimalStep(500, "50");
    DecimalStep(5000, "500");
  }
}
