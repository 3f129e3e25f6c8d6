/**
 * The pieces of Go's `strings`, `strconv` and `net` packages that the client's
 * parsing and command rewriting rely on, over byte strings (one `char` per byte).
 * Each comes with the contract that Go documents for it, and the round trips
 * the client depends on are proved here once.
 */
module GoStrings {
  import opened Wrappers

  // ---------------------------------------------------------------------------
  // strings.LastIndex with a one-byte needle

  /** Index of the last `c` in `s`, or -1 when `s` holds no `c`. */
  function LastIndexOf(s: string, c: char): (r: int)
    ensures -1 <= r < |s|
    ensures r == -1 <==> c !in s
    ensures r >= 0 ==> s[r] == c && c !in s[r + 1..]
    decreases |s|
  {
    if |s| == 0 then -1
    else if s[|s| - 1] == c then |s| - 1
    else
      assert s == s[..|s| - 1] + [s[|s| - 1]];
      LastIndexOf(s[..|s| - 1], c)
  }

  // ---------------------------------------------------------------------------
  // strings.Index and strings.Replace(s, old, new, 1)

  /** Index of the first occurrence of `sub` in `s`, or -1 when there is none. */
  function IndexOf(s: string, sub: string): (r: int)
    ensures -1 <= r <= |s|
    ensures r >= 0 ==> sub <= s[r..]
    ensures r >= 0 ==> forall i :: 0 <= i < r ==> !(sub <= s[i..])
    ensures r == -1 ==> forall i :: 0 <= i <= |s| ==> !(sub <= s[i..])
    decreases |s|
  {
    if sub <= s then 0
    else if |s| == 0 then -1
    else
      var k := IndexOf(s[1..], sub);
      TailSuffixes(s);
      if k < 0 then -1 else k + 1
  }

  /** The suffixes of `s[1..]` are the suffixes of `s` past its first character. */
  lemma TailSuffixes(s: string)
    requires |s| >= 1
    ensures forall i :: 1 <= i <= |s| ==> s[1..][i - 1..] == s[i..]
  {
  }

  /** strings.Replace(s, pat, repl, 1): the first occurrence of `pat` becomes `repl`. */
  function ReplaceFirst(s: string, pat: string, repl: string): (r: string)
    ensures pat <= s ==> r == repl + s[|pat|..]
    ensures (forall i :: 0 <= i <= |s| ==> !(pat <= s[i..])) ==> r == s
  {
    var i := IndexOf(s, pat);
    if i < 0 then s
    else s[..i] + repl + s[i + |pat|..]
  }

  // ---------------------------------------------------------------------------
  // strings.Split and strings.Join with a one-byte separator

  /** Go's `strings.Join(fields, string(sep))`: between separator-free fields, one separator each. */
  function Join(fields: seq<string>, sep: char): (r: string)
    ensures |fields| >= 1 ==> fields[0] <= r
    ensures |fields| >= 2 ==> fields[0] + [sep] <= r
    decreases |fields|
  {
    if |fields| == 0 then ""
    else if |fields| == 1 then fields[0]
    else fields[0] + [sep] + Join(fields[1..], sep)
  }

  /**
   * Go's `strings.Split(s, string(sep))`: one field more than `s` has
   * separators (so the empty string gives one empty field), and no field holds
   * the separator.
   */
  function Split(s: string, sep: char): (r: seq<string>)
    ensures |r| == multiset(s)[sep] + 1
    ensures forall i :: 0 <= i < |r| ==> sep !in r[i]
    decreases |s|
  {
    if |s| == 0 then [""]
    else
      var rest := Split(s[1..], sep);
      assert s == [s[0]] + s[1..];
      assert multiset(s) == multiset([s[0]]) + multiset(s[1..]);
      if s[0] == sep then
        [""] + rest
      else
        var r := [[s[0]] + rest[0]] + rest[1..];
        assert forall i :: 1 <= i < |r| ==> r[i] == rest[i];
        r
  }

  /** Joining separator-free fields puts exactly one separator between each two. */
  lemma {:induction false} JoinSeparators(fields: seq<string>, sep: char)
    requires |fields| >= 1
    requires forall i :: 0 <= i < |fields| ==> sep !in fields[i]
    ensures multiset(Join(fields, sep))[sep] == |fields| - 1
    decreases |fields|
  {
    if |fields| > 1 {
      assert forall i :: 0 <= i < |fields| - 1 ==> fields[1..][i] == fields[i + 1];
      JoinSeparators(fields[1..], sep);
      assert multiset(fields[0])[sep] == 0;
    }
  }

  /** Joining the fields of a split gives back the string that was split. */
  lemma {:induction false} JoinSplit(s: string, sep: char)
    ensures Join(Split(s, sep), sep) == s
    decreases |s|
  {
    if |s| > 0 {
      var rest := Split(s[1..], sep);
      JoinSplit(s[1..], sep);
      if s[0] != sep {
        SplitChar(s[0], s[1..], sep);
        JoinPrepend(s[0], rest, sep);
      } else {
        SplitSep(s[1..], sep);
        JoinEmptyFirst(rest, sep);
      }
      assert s == [s[0]] + s[1..];
    }
  }

  /** A byte put in front of the first field comes first in the join. */
  lemma JoinPrepend(c: char, fields: seq<string>, sep: char)
    requires |fields| >= 1
    ensures Join([[c] + fields[0]] + fields[1..], sep) == [c] + Join(fields, sep)
  {
    var g := [[c] + fields[0]] + fields[1..];
    JoinFirstChar(g, sep);
    assert g[0][1..] == fields[0];
    assert g[1..] == fields[1..];
    assert [fields[0]] + fields[1..] == fields;
  }

  /** An empty first field contributes only its separator. */
  lemma JoinEmptyFirst(fields: seq<string>, sep: char)
    requires |fields| >= 1
    ensures Join([""] + fields, sep) == [sep] + Join(fields, sep)
  {
    assert ([""] + fields)[1..] == fields;
  }

  /** Split consumes a leading separator as the end of an empty first field. */
  lemma SplitSep(s: string, sep: char)
    ensures Split([sep] + s, sep) == [""] + Split(s, sep)
  {
    assert ([sep] + s)[1..] == s;
  }

  /** Split puts a leading non-separator at the head of the first field. */
  lemma SplitChar(c: char, s: string, sep: char)
    requires c != sep
    ensures Split([c] + s, sep) == [[c] + Split(s, sep)[0]] + Split(s, sep)[1..]
  {
    assert ([c] + s)[1..] == s;
  }

  /** Moving the first byte of the first field out of a join. */
  lemma JoinFirstChar(fields: seq<string>, sep: char)
    requires |fields| >= 1 && |fields[0]| > 0
    ensures Join(fields, sep) == [fields[0][0]] + Join([fields[0][1..]] + fields[1..], sep)
  {
    var tail := [fields[0][1..]] + fields[1..];
    assert tail[1..] == fields[1..];
    assert fields[0] == [fields[0][0]] + fields[0][1..];
  }

  /** Splitting a join of separator-free fields gives the fields back. */
  lemma {:induction false} SplitJoin(fields: seq<string>, sep: char)
    requires |fields| >= 1
    requires forall i :: 0 <= i < |fields| ==> sep !in fields[i]
    ensures Split(Join(fields, sep), sep) == fields
    decreases |fields|, |fields[0]|
  {
    var f := fields[0];
    if |f| > 0 {
      var tail := [f[1..]] + fields[1..];
      TailFieldsFree(fields, sep);
      SplitJoin(tail, sep);
      JoinFirstChar(fields, sep);
      SplitChar(f[0], Join(tail, sep), sep);
      RebuildFirst(fields);
    } else if |fields| > 1 {
      SplitJoin(fields[1..], sep);
      JoinEmptyFirst(fields[1..], sep);
      SplitSep(Join(fields[1..], sep), sep);
      assert fields == [""] + fields[1..];
    } else {
      assert fields == [""];
    }
  }

  lemma TailFieldsFree(fields: seq<string>, sep: char)
    requires |fields| >= 1 && |fields[0]| > 0
    requires forall i :: 0 <= i < |fields| ==> sep !in fields[i]
    ensures forall i :: 0 <= i < |[fields[0][1..]] + fields[1..]| ==> sep !in ([fields[0][1..]] + fields[1..])[i]
  {
    var tail := [fields[0][1..]] + fields[1..];
    forall i | 0 <= i < |tail| ensures sep !in tail[i] {
      if i == 0 {
        assert fields[0] == [fields[0][0]] + tail[0];
      } else {
        assert tail[i] == fields[i];
      }
    }
  }

  lemma RebuildFirst(fields: seq<string>)
    requires |fields| >= 1 && |fields[0]| > 0
    ensures [[fields[0][0]] + ([fields[0][1..]] + fields[1..])[0]] + ([fields[0][1..]] + fields[1..])[1..] == fields
  {
    var tail := [fields[0][1..]] + fields[1..];
    assert tail[0] == fields[0][1..];
    assert tail[1..] == fields[1..];
    assert [fields[0][0]] + fields[0][1..] == fields[0];
  }

  // ---------------------------------------------------------------------------
  // strconv.Atoi and strconv.Itoa on a 64-bit platform

  const MinInt64: int := -0x8000_0000_0000_0000
  const MaxInt64: int := 0x7fff_ffff_ffff_ffff

  predicate IsDigit(c: char) { '0' <= c <= '9' }

  predicate AllDigits(s: string) { forall i :: 0 <= i < |s| ==> IsDigit(s[i]) }

  /** The decimal value of a run of digits, read most significant digit first. */
  function DigitsValue(s: string): nat
    requires AllDigits(s)
    decreases |s|
  {
    if |s| == 0 then 0
    else DigitsValue(s[..|s| - 1]) * 10 + (s[|s| - 1] as int - '0' as int)
  }

  /** The text after an optional leading `+` or `-`. */
  function Magnitude(s: string): string
  {
    if |s| > 0 && (s[0] == '+' || s[0] == '-') then s[1..] else s
  }

  /**
   * strconv.Atoi: an optional `+` or `-`, then one or more decimal digits
   * (leading zeros allowed), whose value must fit Go's 64-bit `int`; anything
   * else is an error.
   */
  function Atoi(s: string): (r: Option<int>)
    ensures r.Some? <==> (|Magnitude(s)| >= 1 && AllDigits(Magnitude(s)) &&
      DigitsValue(Magnitude(s)) <= (if s[0] == '-' then -MinInt64 else MaxInt64))
    ensures r.Some? ==> r.value == (if s[0] == '-' then -(DigitsValue(Magnitude(s)) as int) else DigitsValue(Magnitude(s)))
    ensures r.Some? ==> MinInt64 <= r.value <= MaxInt64
  {
    var digits := Magnitude(s);
    if |digits| == 0 || !AllDigits(digits) then None
    else
      var d: int := DigitsValue(digits);
      var v := if s[0] == '-' then -d else d;
      if MinInt64 <= v <= MaxInt64 then Some(v) else None
  }

  function DigitChar(d: nat): (c: char)
    requires d < 10
    ensures IsDigit(c) && c as int - '0' as int == d
  {
    (d + '0' as int) as char
  }

  /** The shortest decimal spelling of `n`: no sign and no leading zero. */
  function NatToDecimal(n: nat): (r: string)
    ensures |r| >= 1 && AllDigits(r)
    ensures DigitsValue(r) == n
    ensures r[0] == '0' ==> n == 0
    decreases n
  {
    if n < 10 then [DigitChar(n)]
    else
      var r := NatToDecimal(n / 10) + [DigitChar(n % 10)];
      assert r[..|r| - 1] == NatToDecimal(n / 10);
      r
  }

  /** strconv.Itoa: a `-` for negative values, then the shortest decimal digits. */
  function Itoa(n: int): (r: string)
    ensures |r| >= 1 && (r[0] == '-' <==> n < 0)
    ensures n < 0 ==> |r| >= 2 && r[1] != '0'
    ensures n >= 0 ==> IsDigit(r[0]) && (r[0] == '0' ==> n == 0)
  {
    if n < 0 then "-" + NatToDecimal(-n) else NatToDecimal(n)
  }

  /** Reading back what Itoa wrote gives the number, for every 64-bit value. */
  lemma AtoiItoa(n: int)
    requires MinInt64 <= n <= MaxInt64
    ensures Atoi(Itoa(n)) == Some(n)
  {
    if n < 0 {
      assert Itoa(n)[1..] == NatToDecimal(-n);
    } else {
      assert IsDigit(Itoa(n)[0]);
    }
  }

  /** Go's `int` arithmetic on a 64-bit platform: results wrap modulo 2^64. */
  function Wrap64(x: int): (r: int)
    ensures MinInt64 <= r <= MaxInt64
    ensures (r - x) % 0x1_0000_0000_0000_0000 == 0
  {
    (x - MinInt64) % 0x1_0000_0000_0000_0000 + MinInt64
  }

  /** A value already in 64-bit range is not changed by wrapping. */
  lemma Wrap64InRange(x: int)
    requires MinInt64 <= x <= MaxInt64
    ensures Wrap64(x) == x
  {
  }

  // ---------------------------------------------------------------------------
  // net.JoinHostPort

  /** net.JoinHostPort: a host holding `:` is taken for IPv6 and bracketed. */
  function JoinHostPort(host: string, port: string): (r: string)
    ensures ':' !in host ==> r == host + ":" + port
    ensures ':' in host ==> r == "[" + host + "]:" + port
  {
    if ':' in host then "[" + host + "]:" + port else host + ":" + port
  }

  /** The last occurrence of `c` is at `k` when `s[k]` is `c` and none follows. */
  lemma LastIndexAt(s: string, c: char, k: int)
    requires 0 <= k < |s| && s[k] == c && c !in s[k + 1..]
    ensures LastIndexOf(s, c) == k
  {
  }

  /**
   * net.SplitHostPort undoes JoinHostPort: for a port without `:`, the text
   * after the last `:` is the port, and the text before it is the host,
   * bracketed exactly when the host holds `:`.
   */
  lemma JoinHostPortSplits(host: string, port: string)
    requires ':' !in port
    ensures var r := JoinHostPort(host, port); var k := LastIndexOf(r, ':');
      0 <= k && r[k + 1..] == port &&
      r[..k] == (if ':' in host then "[" + host + "]" else host)
  {
    var r := JoinHostPort(host, port);
    var k := |r| - |port| - 1;
    assert r[k + 1..] == port;
    LastIndexAt(r, ':', k);
  }

  // ---------------------------------------------------------------------------
  // strings.ToUpper, ASCII letters only

  function UpperChar(c: char): char
  {
    if 'a' <= c <= 'z' then (c as int - 'a' as int + 'A' as int) as char else c
  }

  /** strings.ToUpper restricted to ASCII: `a`..`z` become `A`..`Z`, every other byte stays. */
  function ToUpper(s: string): (r: string)
    ensures |r| == |s|
    ensures forall i :: 0 <= i < |s| ==> r[i] == UpperChar(s[i])
    decreases |s|
  {
    if |s| == 0 then "" else [UpperChar(s[0])] + ToUpper(s[1..])
  }
}
