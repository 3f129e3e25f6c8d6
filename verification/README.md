# go-ftp-demo in Dafny

A model of the small FTP client in `ftp.go` and of the line handling of its
interactive front end in `main.go`.

The client holds one control connection (RFC 959). `Login` opens it, checks
for the 220 greeting, and then runs USER, PASS and TYPE I. Each of these must
get its own reply code: 331, 230 and 200. `Cmd` writes one command line and
reads one reply. `DataCmd` does four things in order:

- it asks for passive mode with PASV;
- it parses the host and port out of the 227 reply;
- it dials that address, sends the command and reads the data connection to
  its end;
- it always closes the data connection and reads one more control reply, the
  deferred block of ftp.go.

`Close` sends QUIT and closes the control connection. The front end rewrites
shell-like aliases (`ls`, `cd`, `cat`, ...) into FTP verbs. It sends a line
over a data connection when the line starts with RETR, NLST, LIST, STOR or
APPE, in any case. It stops on an exact `exit` or `quit`.

Files:

- `wrappers.dfy` holds `Option` and `Result`.
- `gostrings.dfy` holds the Go library behaviour the core relies on:
  `strings.LastIndex`, `Replace(.., 1)`, `Split`, `Join`, `ToUpper` on ASCII,
  `strconv.Atoi` and `Itoa` on 64-bit `int`, 64-bit wrap-around and
  `net.JoinHostPort`.
- `protocol.dfy` holds the reply codes, a reply, and the errors the operations
  return.
- `pasv.dfy` holds the parse of a PASV reply, as a pure function.
- `client.dfy` holds the client. Each operation is first a function from one
  `Session` to the next: the connection held, the dial count, the scripted
  network, and a trace of every network step with its outcome. The
  `Ftp.Client` class then has `conn`, `dialed`, `net` and `trace` fields, and
  methods that change those fields step by step. Each method's `ensures` says
  it ends in the state its function gives.
- `trace.dfy` holds what each operation promises about the events it adds to
  the trace: which lines it writes, which reply codes it waited for, which
  connections it opens and closes, and (in the `*Order` lemmas) that every
  data read comes after the command line was written and answered, and that
  Login writes each line only after the reply before it carried its code.
- `cli.dfy` holds `convertUnixLikeCommand`, `isDataCmd` and the per-line
  decision of the read loop.

The network is a script. Each dial, write, reply read, close and data read
takes the next outcome of its kind, and a script that has run out fails. So
every lemma about an operation holds for every possible behaviour of the
server and the network.

Three behaviours of the code are worth knowing, and the model keeps them:

- A PASV reply whose last `)` comes before its last `(`, or that has no `)`,
  makes the slice at ftp.go:157 go out of range, and Go panics there. The
  model returns the distinct error `PasvSlicePanic`, and `Pasv.PasvPanicIff`
  says exactly when this happens. A reply of the wrong shape fails with a
  malformed-reply error only when its parentheses are in order.
- `Close` does not set `conn` back to nil. Calling it a second time writes
  QUIT again on a connection that is already closed (`FtpTrace.CloseTwice`).
- After a failed `open`, `conn` keeps the previous connection, even though
  `open` may just have closed it (`FtpTrace.OpenConn`).

## Model

| member | source | states |
|---|---|---|
| GoStrings.LastIndexOf | ftp.go:157 | `strings.LastIndex` with a one-byte needle: -1 exactly when the byte is absent, otherwise the index of an occurrence with none after it |
| GoStrings.ReplaceFirst | main.go:68 | `strings.Replace(s, old, new, 1)`: on a line starting with `old`, the result is `new` followed by the rest of the line; with no occurrence, the line is unchanged |
| GoStrings.Split | ftp.go:157 | `strings.Split` on one byte gives one more field than the separators in the text, and no field holds the separator |
| GoStrings.JoinSplit | ftp.go:157 | joining the fields of a split with the same separator gives back the text |
| GoStrings.SplitJoin | ftp.go:157 | splitting the join of separator-free fields gives back the fields |
| GoStrings.Join | ftp.go:169 | `strings.Join` starts with the first field, followed by the separator when a second field follows |
| GoStrings.JoinSeparators | ftp.go:169 | joining separator-free fields puts exactly one separator between each two, and no other |
| GoStrings.Atoi | ftp.go:161-168 | `strconv.Atoi`: a text is read exactly when, after an optional `+` or `-`, it is one or more decimal digits (leading zeros allowed) whose value fits in 64 bits; the value is those digits, negated after a `-` |
| GoStrings.Itoa | ftp.go:169 | `strconv.Itoa` never gives the empty text, starts with `-` exactly for a negative value, and has no leading zero: its first digit is `0` only for zero itself |
| GoStrings.AtoiItoa | ftp.go:161-169 | every 64-bit value read back from its `Itoa` spelling is itself |
| GoStrings.Wrap64 | ftp.go:169 | `p1*256+p2` in Go's 64-bit `int`: the result is in range and congruent to the exact value modulo 2^64 |
| GoStrings.JoinHostPort | ftp.go:169 | `net.JoinHostPort` brackets a host holding `:` and otherwise joins host and port with `:` |
| GoStrings.JoinHostPortSplits | ftp.go:169 | splitting the joined address at its last `:`, as `net.SplitHostPort` does, gives back the port and the host, bracketed exactly when it holds `:` |
| GoStrings.ToUpper | main.go:90 | `strings.ToUpper` on ASCII: same length, each letter a..z raised, every other character kept |
| Pasv.ParsePasv | ftp.go:154-169 | a code other than 227 is the error `Rejected("PASV", reply)`; every other failure is a slice panic, a malformed group or a malformed port |
| Pasv.AddressGroup | ftp.go:157 | the slice panics exactly when no `)` follows the last `(` (or the start, with no `(`); otherwise the group starts right after the last `(`, ends exactly at the last `)`, and holds no `(` |
| Pasv.GroupAddress | ftp.go:157-169 | the group is `PasvMalformed` exactly when it does not hold five commas, that is, does not split into six fields; any other failure is a port error |
| Pasv.PasvPanicIff | ftp.go:157 | the slice panics exactly when some point of the reply, its start or just after a `(`, has no `)` after it |
| Pasv.PasvFieldCount | ftp.go:157-160 | with the group found, the reply is malformed exactly when the group does not hold five commas |
| Pasv.FieldsAddress | ftp.go:161-169 | six fields give an address exactly when the fifth and sixth both read as integers; otherwise the error is a malformed port |
| Pasv.AddressSplits | ftp.go:161-169 | the address from six fields splits at its last `:` into the first four fields joined with `.` (bracketed when they hold a `:`) and a port that reads back as `p1*256+p2` wrapped to 64 bits |
| Pasv.PasvFields | ftp.go:157-169 | a reply `pre(f1,..,f6)post` parses to what the six fields stand for: host `f1.f2.f3.f4` unchecked, port from `f5` and `f6` or a port error |
| Pasv.PasvOctets | ftp.go:157-169 | decimal octets and port bytes, as a conforming server sends them, parse back to `h1.h2.h3.h4:p1*256+p2` |
| Pasv.PasvExample | ftp.go:149-170 | `(127,0,0,1,19,136).` after any text announces `127.0.0.1:5000` |
| Ftp.ControlAddr | ftp.go:133 | the address dialed is the host, a `:`, and a port text that reads back as the port |
| Ftp.Client.constructor | ftp.go:31-37 | a new client holds no connection and has done no network step |
| Ftp.Client.Cmd | ftp.go:81-93 | writes the line, then reads one reply only if the write worked, and does not check the reply code |
| Ftp.Client.Open | ftp.go:126-146 | closes the connection held, and fails if that close fails; otherwise dials, and holds the new connection only after a 220 greeting |
| Ftp.Client.Login | ftp.go:58-77 | open, then USER, PASS and TYPE I, each needing 331, 230 and 200, stopping at the first failure with that step's error |
| Ftp.Client.PassiveMode | ftp.go:149-170 | the PASV exchange; a failed exchange is wrapped as a PASV send failure, otherwise the reply is parsed by `ParsePasv` |
| Ftp.Client.DataCmd | ftp.go:96-105 | a PASV failure or a failed data dial returns before anything else is done |
| Ftp.Client.Transfer | ftp.go:106-124 | sends the command, reads the data connection only if the exchange went through, then on every path closes the data connection and reads one more reply |
| Ftp.Client.Close | ftp.go:40-50 | with a connection held, sends QUIT and closes it, ignoring both outcomes; without one, does nothing; `conn` is never reset |
| FtpTrace.CmdTrace | ftp.go:81-93 | Cmd writes exactly its line, reads at most one reply, and touches no other connection |
| FtpTrace.OpenTrace | ftp.go:126-146 | open writes no command, dials at most once, and succeeds exactly when the one reply it read was 220 |
| FtpTrace.DialTrace | ftp.go:132-145 | the dial and greeting: one dial, at most one reply, success exactly on a 220 greeting |
| FtpTrace.OpenConn | ftp.go:127-145 | on success `conn` is the connection just dialed; on failure `conn` is unchanged; with a connection held, the first event closes it, and if that close fails nothing else happens |
| FtpTrace.RunTrace | ftp.go:62-77 | counted apart from their order, a run of steps writes a prefix of their lines, a line only if the codes read begin with the codes the lines before it need, reads no more replies than it writes lines, and succeeds exactly when the codes read are the codes needed |
| FtpTrace.RunOrder | ftp.go:62-77 | the events of a run are back-to-back exchanges: each step's line is written, a reply is read only if the write went through, the next line is written right after a reply carrying the code the step before needs and only then, and the run stops right after the first exchange that fails |
| FtpTrace.DialGreeting | ftp.go:133-145 | when the dial and greeting work, the last event is reading a reply with code 220 |
| FtpTrace.OpenGreeting | ftp.go:126-146 | when open works, its last event is reading a reply with code 220 |
| FtpTrace.LoginOrder | ftp.go:58-77 | open writes no line; when it worked, its events end with a 220 greeting and USER, PASS and TYPE I follow as exchanges, PASS written only right after USER was answered 331 and TYPE I only right after PASS was answered 230; when it failed, nothing follows |
| FtpTrace.LoginTrace | ftp.go:58-77 | Login writes a prefix of USER, PASS, TYPE I and nothing else; it succeeds exactly when the replies read were 220, 331, 230, 200, and then holds the connection it dialed; it opens no data connection |
| FtpTrace.PassiveTrace | ftp.go:150-156 | passive mode writes only PASV, and returns an address only when the reply it read was 227 |
| FtpTrace.FetchTrace | ftp.go:116-123 | counted apart from their order: the command is written once, no data connection is opened or closed, and the data returned is exactly the data read |
| FtpTrace.FetchOrder | ftp.go:116-123 | the first event writes the command, a data read can only be the third event, after that write worked and its reply was read, and no data connection is dialed |
| FtpTrace.CleanupTrace | ftp.go:106-115 | the deferred block closes the data connection and then reads one control reply |
| FtpTrace.TransferTrace | ftp.go:106-124 | once the data connection is up, every path writes the command once, ends with closing the data connection then reading a reply, and returns only the data read |
| FtpTrace.TransferOrder | ftp.go:106-124 | the deferred block reads no data and dials nothing, so the whole transfer keeps that order: the command first, any data read only right after its reply, and no data dial |
| FtpTrace.ConnectTrace | ftp.go:101-124 | the command is written exactly when the data dial worked, and the data connection is closed exactly when it was opened |
| FtpTrace.DataCmdTrace | ftp.go:96-124 | counted apart from their order: DataCmd always writes PASV, and its line exactly when the data connection came up; it opens at most one data connection, and only when the first reply it read was 227; it closes each one it opens, and returns only the data it read |
| FtpTrace.CmdOrder | ftp.go:81-93 | Cmd's first event is the write of its line, it dials and reads no data connection, and on success it is exactly that write and one reply |
| FtpTrace.PassiveOrder | ftp.go:149-170 | passiveMode dials and reads no data connection, and an address comes from exactly a PASV write that went through and one 227 reply whose text parses to that address |
| FtpTrace.ConnectOrder | ftp.go:101-124 | the first event is the one dial of the server's data address and nothing is dialed after it; a failed dial is the last event; after a dial that worked, the command is the next event and any data read comes right after its reply; without a working dial no data is read |
| FtpTrace.DataCmdOrder | ftp.go:96-124 | every data dial is the third event, after PASV was written and answered 227, and goes to the address parsed from that reply; when DataCmd opened a data connection, its line is the fourth event and the only data read comes right after that line's reply; otherwise it read no data |
| FtpTrace.CloseTrace | ftp.go:40-50 | Close with no connection is the identity; with one it writes QUIT, reads at most one reply, ends by closing the control connection, and keeps `conn` |
| FtpTrace.CloseTwice | ftp.go:40-50 | two Closes with a connection held write QUIT twice |
| Cli.ConvertUnixLikeCommand | main.go:66-86 | rewriting changes only the head of a line: the result is at most two characters longer, and everything after the first three characters is kept |
| Cli.AliasesPrefixFree | main.go:66-84 | no two alias prefixes can both start one line, so at most one rule fires |
| Cli.ConvertRule | main.go:66-84 | a line starting with an alias becomes its verb followed by the rest of the line, unchanged (`cdrom` becomes `CWDrom`) |
| Cli.ConvertUnmatched | main.go:85 | a line starting with no alias is returned as it is |
| Cli.ConvertIdempotent | main.go:66-86 | rewriting a rewritten line changes nothing |
| Cli.ConvertKeepsLength | main.go:66-86 | rewriting never shortens a line |
| Cli.HasAnyPrefix | main.go:89-94 | the search over the table holds exactly when some entry is a prefix of the text |
| Cli.IsDataCmd | main.go:88-95 | a data command has at least four characters and starts, upper-cased, with the first letter of a data verb |
| Cli.IsDataCmdIff | main.go:88-95 | a line is a data command exactly when its first four characters, upper-cased, are one of RETR, NLST, LIST, STOR, APPE |
| Cli.IsDataCmdIgnoresCase | main.go:90 | a line and its upper-cased form are classified alike |
| Cli.VerbCaseIgnored | main.go:88-95 | `retr` and `RETR` lines are data commands and `CWD` lines are not, whatever follows |
| Cli.AliasRouting | main.go:48-49 | after rewriting, `ls`, `dir` and `cat` lines are data commands and `cd`, `rm` and `pwd` lines are not |
| Cli.Dispatch | main.go:41-61 | the empty line is skipped, exactly `exit` and `quit` stop, and every other line is rewritten and sent, non-empty, over a data connection exactly when it is a data command |
| Cli.DispatchSendsRewritten | main.go:48 | what is sent is already in rewritten form |
| Cli.DispatchList | main.go:41-61 | `ls ...` is sent as `NLST ...` over a data connection |
| Cli.DispatchChangeDir | main.go:41-61 | `cd ...` is sent as `CWD ...` over the control connection |
| Cli.DispatchRetrieve | main.go:41-61 | `retr ...` is sent as typed over a data connection |
| Cli.DispatchPlain | main.go:41-61 | a line other than `exit` and `quit` that starts with none of `c l d r p` and whose upper-cased first character starts no data verb is sent as typed over the control connection |
| Cli.RewrittenRouting | main.go:48-49 | a line that starts with an alias is a data command after rewriting exactly when the alias is `ls`, `dir` or `cat` |
| Cli.CasesDiffer | main.go:66-84 | a rewritten line starts with no alias, because every verb is upper case |
| Cli.StopIsExact | main.go:45-47 | `EXIT ...` and `exit` with more text after it do not stop; they are sent to the server |

## Left out

- Logging: `SetLogger` and every `Printf` of the logger (ftp.go:52-55 and throughout) only write diagnostics.
- Sockets: `net.Dial`, `textproto.Dial`, `ioutil.ReadAll` and `Close` are scripted outcomes, not network I/O. One queue of dial outcomes serves both control and data dials, and one queue of close outcomes serves both kinds of close.
- Reply parsing: `textproto`'s reading of reply lines, including multi-line replies, is not modelled. A read gives one `(code, text)` reply or a failure. With expected code 0 the code is not checked (ftp.go:86, 110). With 220, any other code is an error (ftp.go:138).
- Error text: errors are values of `Protocol.Error`, not the formatted strings of `fmt.Errorf`. The wrapping structure is kept.
- Ftp.Client.Cmd: `textproto.Conn.Cmd` formats its text with `fmt.Printf` and no arguments. The trace records the text passed, which equals the line written only when the text holds no `%` (Go turns `%%` into `%`, a verb into `%!v(MISSING)` and a trailing `%` into `%!(NOVERB)`). `CmdTrace`, `LoginTrace` and the other trace lemmas speak of that text; the front end passes user lines here unescaped.
- Ftp.Client.Cmd: requires a connection. Go dereferences a nil `conn` when no connection is held, which is a panic, not a result. The same goes for `PassiveMode`, `DataCmd` and `Transfer`.
- Ftp.Client.Transfer: STOR and APPE only read the data connection here, because that is all the code does (ftp.go:119). No upload is modelled.
- Pasv.ParsePasv: the port is not range-checked, and `p1*256+p2` wraps at 64 bits, because the code does neither more nor less. A port above 65535 is carried into the address as it is.
- GoStrings.ToUpper: Unicode case mapping is not modelled; only ASCII letters are raised.
- The `main` function: flag parsing, the `bufio.Scanner` loop, printing and `os.Exit` are I/O (main.go:14-40, 50-63). Only the decision for one line (`Cli.Dispatch`) is modelled.
- `NewFTPClient` (main.go:25) is not part of this model. It is not defined in the files of this repository; `Ftp.Client.constructor` models `NewClient` (ftp.go:31-37).
- Concurrency and timeouts: the client has none.
