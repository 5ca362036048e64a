/** Decimal text, "host:port" addresses and the lines of the servers file. */
module Addresses {
  import opened Basics

  // ---------- decimal text ----------

  function Digit(d: nat): char
    requires d < 10
  {
    ['0', '1', '2', '3', '4', '5', '6', '7', '8', '9'][d]
  }

  predicate IsDigit(c: char) {
    '0' <= c <= '9'
  }

  function DigitValue(c: char): nat {
    if IsDigit(c) then c as nat - '0' as nat else 0
  }

  function Digits(n: nat): (s: string)
    ensures s != "" && forall c :: c in s ==> IsDigit(c)
  {
    if n < 10 then [Digit(n)] else Digits(n / 10) + [Digit(n % 10)]
  }

  /** What the verb %d prints. */
  function Decimal(n: int): string {
    if n < 0 then "-" + Digits(-n) else Digits(n)
  }

  function DigitsValue(s: string): nat {
    if s == "" then 0 else 10 * DigitsValue(s[..|s| - 1]) + DigitValue(s[|s| - 1])
  }

  function SignedValue(s: string): int {
    if s != "" && s[0] == '-' then 0 - DigitsValue(s[1..])
    else if s != "" && s[0] == '+' then DigitsValue(s[1..])
    else DigitsValue(s)
  }

  predicate DigitsOnly(s: string) {
    s != "" && forall i :: 0 <= i < |s| ==> IsDigit(s[i])
  }

  /** strconv.Atoi on a 64-bit build: an optional sign, one or more digits, in range. */
  function Atoi(s: string): Option<int> {
    var signed := s != "" && (s[0] == '-' || s[0] == '+');
    var body := if signed then s[1..] else s;
    if !DigitsOnly(body) then None
    else
      if FitsInt64(SignedValue(s)) then Some(SignedValue(s)) else None
  }

  predicate FitsInt64(n: int) {
    -0x8000_0000_0000_0000 <= n < 0x8000_0000_0000_0000
  }

  lemma {:induction false} DigitsValueOfDigits(n: nat)
    ensures DigitsValue(Digits(n)) == n
  {
    if n < 10 {
      assert Digits(n)[..0] == "";
    } else {
      DigitsValueOfDigits(n / 10);
      assert Digits(n)[..|Digits(n)| - 1] == Digits(n / 10);
    }
  }

  lemma SignedValueOfDecimal(n: int)
    ensures SignedValue(Decimal(n)) == n
  {
    hide Digits, DigitsValue;
    if n < 0 {
      DigitsValueOfDigits(-n);
      assert Decimal(n)[1..] == Digits(-n);
    } else {
      DigitsValueOfDigits(n);
      assert Decimal(n)[0] in Digits(n);
    }
  }

  /** Atoi reads back what %d prints. */
  lemma AtoiOfDecimal(n: int)
    requires FitsInt64(n)
    ensures Atoi(Decimal(n)) == Some(n)
  {
    SignedValueOfDecimal(n);
    if n < 0 {
      assert Decimal(n)[1..] == Digits(-n);
    } else {
      assert Decimal(n)[0] in Digits(n);
    }
  }

  ghost predicate AllDigits(s: string) {
    s != "" && forall c :: c in s ==> '0' <= c <= '9'
  }

  lemma AllDigitsIff(s: string)
    ensures AllDigits(s) <==> DigitsOnly(s)
  {
    assert forall i :: 0 <= i < |s| ==> s[i] in s;
    forall c | c in s && forall i :: 0 <= i < |s| ==> IsDigit(s[i]) ensures '0' <= c <= '9' {
      var i :| 0 <= i < |s| && s[i] == c;
    }
  }

  /** Atoi accepts exactly a digit or more, after a sign or none, whose value fits. */
  lemma AtoiAcceptsIff(s: string)
    ensures var body := if s != "" && (s[0] == '+' || s[0] == '-') then s[1..] else s;
      Atoi(s) == if AllDigits(body) && FitsInt64(SignedValue(s)) then Some(SignedValue(s)) else None
  {
    hide SignedValue, AllDigits, DigitsOnly, FitsInt64;
    AllDigitsIff(if s != "" && (s[0] == '-' || s[0] == '+') then s[1..] else s);
  }

  lemma DecimalHasNoSeparator(n: int)
    ensures ':' !in Decimal(n) && '|' !in Decimal(n)
  {
    assert forall c :: c in Digits(if n < 0 then -n else n) ==> IsDigit(c);
  }

  /** SSHServer.Addr, and the target address of both proxy modes. */
  function HostPort(host: string, port: int): string {
    host + ":" + Decimal(port)
  }

  // ---------- separators ----------

  /** The parts of a text before and after the first `c` in it. */
  function CutFirst(s: string, c: char): (string, string) {
    if s == "" then ("", "")
    else if s[0] == c then ("", s[1..])
    else
      var (before, after) := CutFirst(s[1..], c);
      ([s[0]] + before, after)
  }

  /** The parts of a text before and after the last `c` in it. */
  function CutLast(s: string, c: char): (string, string) {
    if s == "" then ("", "")
    else
      var last := |s| - 1;
      if s[last] == c then (s[..last], "")
      else
        var (before, after) := CutLast(s[..last], c);
        (before, after + [s[last]])
  }

  lemma {:induction false} CutFirstOf(a: string, c: char, x: string)
    requires c !in a
    ensures CutFirst(a + [c] + x, c) == (a, x)
  {
    var s := a + [c] + x;
    if a == "" {
      assert s[1..] == x;
    } else {
      assert s[1..] == a[1..] + [c] + x;
      CutFirstOf(a[1..], c, x);
      assert [a[0]] + a[1..] == a;
    }
  }

  lemma {:induction false} CutLastOf(a: string, c: char, x: string)
    requires c !in x
    ensures CutLast(a + [c] + x, c) == (a, x)
  {
    var s := a + [c] + x;
    if x == "" {
      assert s[..|s| - 1] == a;
    } else {
      var last := |x| - 1;
      assert s[..|s| - 1] == a + [c] + x[..last];
      CutLastOf(a, c, x[..last]);
      assert x[..last] + [x[last]] == x;
    }
  }

  /** A text of the form host:port whose host has no colon. */
  ghost predicate IsUpstreamAddr(addr: string) {
    exists host, port: int :: addr == HostPort(host, port) && ':' !in host
  }

  // ---------- the servers file ----------

  /** strings.Split. */
  function Split(s: string, c: char): (fields: seq<string>)
    ensures fields != []
  {
    if s == "" then [""]
    else
      var rest := Split(s[1..], c);
      if s[0] == c then [""] + rest else [[s[0]] + rest[0]] + rest[1..]
  }

  function Join(fields: seq<string>, c: char): string
    requires fields != []
  {
    if |fields| == 1 then fields[0] else fields[0] + [c] + Join(fields[1..], c)
  }

  lemma {:induction false} FieldsHaveNoSeparator(s: string, c: char)
    ensures forall f :: f in Split(s, c) ==> c !in f
  {
    if s != "" {
      FieldsHaveNoSeparator(s[1..], c);
      var rest := Split(s[1..], c);
      assert rest[0] in rest;
    }
  }

  lemma JoinAfterSeparator(rest: seq<string>, c: char)
    requires rest != []
    ensures Join([""] + rest, c) == [c] + Join(rest, c)
  {
    assert ([""] + rest)[1..] == rest;
  }

  lemma JoinLonger(x: char, rest: seq<string>, c: char)
    requires rest != []
    ensures Join([[x] + rest[0]] + rest[1..], c) == [x] + Join(rest, c)
  {
    var fields := [[x] + rest[0]] + rest[1..];
    assert fields[1..] == rest[1..];
    if |rest| > 1 {
      assert [x] + rest[0] + [c] + Join(rest[1..], c) == [x] + (rest[0] + [c] + Join(rest[1..], c));
    }
  }

  /** Joining the fields of a line gives the line back. */
  lemma {:induction false} SplitIsInverseOfJoin(s: string, c: char)
    ensures Join(Split(s, c), c) == s
  {
    hide Join;
    if s == "" {
      JoinOfNothing(c);
    } else {
      SplitIsInverseOfJoin(s[1..], c);
      var rest := Split(s[1..], c);
      assert s == [s[0]] + s[1..];
      if s[0] == c {
        JoinAfterSeparator(rest, c);
      } else {
        JoinLonger(s[0], rest, c);
      }
    }
  }

  lemma JoinOfNothing(c: char)
    ensures Join([""], c) == ""
  {
  }

  lemma {:induction false} SplitAtSeparator(a: string, c: char, rest: string)
    requires c !in a
    ensures Split(a + [c] + rest, c) == [a] + Split(rest, c)
  {
    var s := a + [c] + rest;
    if a == "" {
      assert s[1..] == rest;
    } else {
      assert s[1..] == a[1..] + [c] + rest;
      SplitAtSeparator(a[1..], c, rest);
      assert [a[0]] + a[1..] == a;
    }
  }

  lemma {:induction false} SplitWithoutSeparator(a: string, c: char)
    requires c !in a
    ensures Split(a, c) == [a]
  {
    if a != "" {
      SplitWithoutSeparator(a[1..], c);
      assert [a[0]] + a[1..] == a;
    }
  }

  datatype AuthMethod = AuthKey | AuthPassword | AuthProxyCommand

  datatype Server = Server(host: string, port: int, username: string, auth: AuthMethod,
                           keyPath: string, password: string, proxyCommand: string)

  datatype ParseError = BadFieldCount | EmptyHost | BadPort | NoHomeDirectory | NoAuthMethod

  datatype Parsed = Ok(server: Server) | Error(error: ParseError)

  /** The options of the command line, and what the file system says about the default key. */
  datatype Options = Options(username: string, keyFile: string, proxyCommand: string,
                             forceCloudflared: bool, defaultKey: Option<string>, defaultKeyExists: bool)

  predicate UsesProxyCommand(o: Options) {
    o.forceCloudflared || o.proxyCommand != ""
  }

  /** What is wrong with the fields of a line, in the order in which the parser looks. */
  function LineError(f: seq<string>, o: Options): Option<ParseError>
    requires f != []
  {
    var noSecret := o.keyFile == "" && (|f| < 3 || f[2] == "" || f[2] == "-");
    if |f| > 3 then Some(BadFieldCount)
    else if f[0] == "" then Some(EmptyHost)
    else if |f| >= 2 && f[1] != "" && Atoi(f[1]) == None then Some(BadPort)
    else if noSecret && o.defaultKey == None then Some(NoHomeDirectory)
    else if noSecret && !UsesProxyCommand(o) && !o.defaultKeyExists then Some(NoAuthMethod)
    else None
  }

  function Occurrences(s: string, c: char): nat {
    if s == "" then 0 else Occurrences(s[..|s| - 1], c) + (if s[|s| - 1] == c then 1 else 0)
  }

  lemma {:induction false} OccurrencesFromFront(s: string, c: char)
    requires s != ""
    ensures Occurrences(s, c) == (if s[0] == c then 1 else 0) + Occurrences(s[1..], c)
  {
    if |s| == 1 {
      assert s[..0] == s[1..] == "";
    } else {
      OccurrencesFromFront(s[..|s| - 1], c);
      assert s[..|s| - 1][1..] == s[1..][..|s| - 2];
    }
  }

  lemma {:induction false} FieldCount(s: string, c: char)
    ensures |Split(s, c)| == Occurrences(s, c) + 1
    ensures Split(s, c)[0] == "" <==> s == "" || s[0] == c
  {
    if s != "" {
      FieldCount(s[1..], c);
      OccurrencesFromFront(s, c);
    }
  }

  /** Each reason for refusing a line, in terms of its text: the first of them that applies counts. */
  lemma LineErrorIs(line: string, o: Options)
    ensures var f, e := Split(line, ':'), LineError(Split(line, ':'), o);
      var tooMany := Occurrences(line, ':') >= 3;
      var noHost := line == "" || line[0] == ':';
      var noPort := |f| >= 2 && f[1] != "" && Atoi(f[1]) == None;
      var noSecret := o.keyFile == "" && (|f| < 3 || f[2] == "" || f[2] == "-");
      && (e == Some(BadFieldCount) <==> tooMany)
      && (e == Some(EmptyHost) <==> !tooMany && noHost)
      && (e == Some(BadPort) <==> !tooMany && !noHost && noPort)
      && (e == Some(NoHomeDirectory) <==> !tooMany && !noHost && !noPort && noSecret && o.defaultKey == None)
      && (e == Some(NoAuthMethod) <==>
            !tooMany && !noHost && !noPort && noSecret && o.defaultKey.Some?
            && !o.defaultKeyExists && !o.forceCloudflared && o.proxyCommand == "")
  {
    FieldCount(line, ':');
  }

  /**
   The server that an acceptable line describes. Its password is the third field, unless that is a
   dash; it authenticates by the proxy command if there is one, else by the key file, else by the
   password, else by the default key.
   */
  ghost predicate Describes(line: string, o: Options, s: Server) {
    var f, proxied := Split(line, ':'), o.forceCloudflared || o.proxyCommand != "";
    && s.host == f[0] && s.host != "" && ':' !in s.host
    && (if |f| >= 2 && f[1] != "" then Atoi(f[1]) == Some(s.port) else s.port == 22)
    && s.username == o.username
    && s.password == (if |f| == 3 && f[2] != "-" then f[2] else "")
    && s.proxyCommand == (if proxied then o.proxyCommand else "")
    && s.auth == (if proxied then AuthProxyCommand
                  else if o.keyFile == "" && s.password != "" then AuthPassword else AuthKey)
    && s.keyPath == (if o.keyFile != "" then o.keyFile
                     else if s.password == "" && o.defaultKeyExists && o.defaultKey.Some? then o.defaultKey.value
                     else "")
    && (s.auth == AuthKey && o.keyFile == "" ==> o.defaultKeyExists && o.defaultKey.Some?)
  }

  /**
   parseServerLine: a line is refused exactly for the reasons of LineError, and an accepted line
   gives the server it describes.
   */
  method ParseServerLine(line: string, o: Options) returns (r: Parsed)
    ensures r.Error? <==> LineError(Split(line, ':'), o).Some?
    ensures r.Error? ==> LineError(Split(line, ':'), o) == Some(r.error)
    ensures r.Ok? ==> Describes(line, o, r.server)
  {
    var fields := Split(line, ':');
    FieldsHaveNoSeparator(line, ':');
    if |fields| < 1 || |fields| > 3 {
      return Error(BadFieldCount);
    }
    var host := fields[0];
    if host == "" {
      return Error(EmptyHost);
    }
    var port := 22;
    if |fields| >= 2 && fields[1] != "" {
      var p := Atoi(fields[1]);
      if p == None {
        return Error(BadPort);
      }
      port := p.value;
    }
    var password := "";
    if |fields| == 3 {
      password := fields[2];
    }
    var server := Server(host, port, o.username, AuthKey, o.keyFile, "", "");
    if password != "" && password != "-" {
      server := server.(password := password);
    }
    if o.forceCloudflared || o.proxyCommand != "" {
      server := server.(auth := AuthProxyCommand, proxyCommand := o.proxyCommand);
      if server.keyPath == "" && server.password == "" {
        if o.defaultKey == None {
          return Error(NoHomeDirectory);
        }
        if o.defaultKeyExists {
          server := server.(keyPath := o.defaultKey.value);
        }
      }
    } else if server.keyPath != "" {
      server := server.(auth := AuthKey);
    } else if server.password != "" {
      server := server.(auth := AuthPassword);
    } else {
      if o.defaultKey == None {
        return Error(NoHomeDirectory);
      }
      if o.defaultKeyExists {
        server := server.(auth := AuthKey, keyPath := o.defaultKey.value);
      } else {
        return Error(NoAuthMethod);
      }
    }
    return Ok(server);
  }

  // ---------- the whole file ----------

  /** Empty lines and comments name no server. */
  predicate NamesServer(line: string) {
    line != "" && line[0] != '#'
  }

  /** The address of the server that a line names: its host, and its port or 22. */
  function LineAddr(line: string): string {
    var f := Split(line, ':');
    var port := if |f| >= 2 && f[1] != "" then Atoi(f[1]) else None;
    HostPort(f[0], if port.Some? then port.value else 22)
  }

  /** The upstream addresses that a servers file names, in order. */
  function FileAddrs(lines: seq<string>): seq<string> {
    if lines == [] then []
    else
      var last := lines[|lines| - 1];
      FileAddrs(lines[..|lines| - 1]) + (if NamesServer(last) then [LineAddr(last)] else [])
  }

  /** The lines that name servers, in order. */
  function NamingLines(lines: seq<string>): seq<string> {
    if lines == [] then []
    else
      var last := lines[|lines| - 1];
      NamingLines(lines[..|lines| - 1]) + (if NamesServer(last) then [last] else [])
  }

  /** They are exactly the lines that are not empty and do not start with a hash sign. */
  lemma {:induction false} NamingLinesInOrder(lines: seq<string>) returns (js: seq<nat>)
    ensures Increasing(js)
    ensures forall j: nat :: j in js <==> j < |lines| && lines[j] != "" && lines[j][0] != '#'
    ensures |js| == |NamingLines(lines)|
    ensures forall x :: 0 <= x < |js| ==> js[x] < |lines| && NamingLines(lines)[x] == lines[js[x]]
  {
    js := NamingPlaces(lines, |lines|);
    hide Increasing, NamesServer, NamingLines;
    assert lines[..|lines|] == lines;
    forall j: nat | j < |lines| ensures NamesServer(lines[j]) <==> lines[j] != "" && lines[j][0] != '#' {
      NamesServerIff(lines[j]);
    }
  }

  lemma NamesServerIff(line: string)
    ensures NamesServer(line) <==> line != "" && line[0] != '#'
  {
  }

  lemma {:induction false} NamingPlaces(lines: seq<string>, m: nat) returns (js: seq<nat>)
    requires m <= |lines|
    ensures Increasing(js) && forall j: nat :: j in js <==> j < m && NamesServer(lines[j])
    ensures |js| == |NamingLines(lines[..m])|
    ensures forall x :: 0 <= x < |js| ==> js[x] < m && NamingLines(lines[..m])[x] == lines[js[x]]
  {
    hide NamesServer, Increasing, NamingLines;
    if m == 0 {
      js := NoPlaces();
      assert lines[..0] == [];
      NamesNothing();
    } else {
      js := NamingPlaces(lines, m - 1);
      NamingGrows(lines, m - 1);
      if NamesServer(lines[m - 1]) {
        OneMorePlace(js, m - 1);
        js := js + [m - 1];
      }
    }
  }

  lemma NamesNothing()
    ensures NamingLines([]) == []
  {
  }

  lemma NamingGrows(lines: seq<string>, m: nat)
    requires m < |lines|
    ensures NamingLines(lines[..m + 1])
      == NamingLines(lines[..m]) + (if NamesServer(lines[m]) then [lines[m]] else [])
  {
    assert lines[..m + 1][..m] == lines[..m];
  }

  /** The addresses of a file are those of its naming lines. */
  lemma {:induction false} FileAddrsOfNaming(lines: seq<string>)
    ensures |FileAddrs(lines)| == |NamingLines(lines)|
    ensures forall x :: 0 <= x < |FileAddrs(lines)| ==> FileAddrs(lines)[x] == LineAddr(NamingLines(lines)[x])
  {
    hide LineAddr, NamesServer;
    if lines != [] {
      FileAddrsOfNaming(lines[..|lines| - 1]);
    }
  }

  /** These servers are the ones that the lines describe, one each, in order. */
  ghost predicate AllDescribed(lines: seq<string>, o: Options, servers: seq<Server>) {
    && |servers| == |NamingLines(lines)|
    && forall k :: 0 <= k < |servers| ==> Describes(NamingLines(lines)[k], o, servers[k])
  }

  function ServerAddrs(servers: seq<Server>): (addrs: seq<string>)
    ensures |addrs| == |servers|
    ensures forall i :: 0 <= i < |addrs| ==> addrs[i] == HostPort(servers[i].host, servers[i].port)
  {
    seq(|servers|, i requires 0 <= i < |servers| => HostPort(servers[i].host, servers[i].port))
  }

  datatype ParsedFile = Servers(servers: seq<Server>) | BadLine(at: nat, error: ParseError) | NoProxyCommand

  /** The lines of this part of a file are all acceptable. */
  ghost predicate Acceptable(lines: seq<string>, o: Options) {
    forall line :: line in lines && NamesServer(line) ==> LineError(Split(line, ':'), o) == None
  }

  lemma NothingRead(lines: seq<string>, o: Options)
    ensures Acceptable(lines[..0], o) && AllDescribed(lines[..0], o, [])
  {
  }

  lemma LineSkipped(lines: seq<string>, i: nat, o: Options, servers: seq<Server>)
    requires i < |lines| && !NamesServer(lines[i])
    requires Acceptable(lines[..i], o) && AllDescribed(lines[..i], o, servers)
    ensures Acceptable(lines[..i + 1], o) && AllDescribed(lines[..i + 1], o, servers)
  {
    hide NamingLines, NamesServer, LineError, Describes, Split;
    PrefixGrows(lines, i);
    NamingGrows(lines, i);
    assert NamingLines(lines[..i + 1]) == NamingLines(lines[..i]);
  }

  lemma LineRead(lines: seq<string>, i: nat, o: Options, servers: seq<Server>, server: Server)
    requires i < |lines| && NamesServer(lines[i])
    requires LineError(Split(lines[i], ':'), o) == None && Describes(lines[i], o, server)
    requires Acceptable(lines[..i], o) && AllDescribed(lines[..i], o, servers)
    ensures Acceptable(lines[..i + 1], o) && AllDescribed(lines[..i + 1], o, servers + [server])
  {
    hide NamingLines, NamesServer, LineError, Describes, Split;
    PrefixGrows(lines, i);
    NamingGrows(lines, i);
  }

  /** The servers that the lines describe have the addresses that they name. */
  lemma DescribedAddrs(lines: seq<string>, o: Options, servers: seq<Server>)
    requires AllDescribed(lines, o, servers)
    ensures ServerAddrs(servers) == FileAddrs(lines)
  {
    hide LineAddr, HostPort, FileAddrs, NamingLines, Describes;
    FileAddrsOfNaming(lines);
    forall k | 0 <= k < |servers| ensures ServerAddrs(servers)[k] == FileAddrs(lines)[k] {
      DescribedAddr(NamingLines(lines)[k], o, servers[k]);
    }
  }

  lemma DescribedAddr(line: string, o: Options, s: Server)
    requires Describes(line, o, s)
    ensures LineAddr(line) == HostPort(s.host, s.port)
  {
  }

  /** ParseServersFile, on lines whose surrounding blanks are gone: the first faulty line ends it. */
  method ParseServersFile(lines: seq<string>, o: Options) returns (r: ParsedFile)
    ensures r.NoProxyCommand? <==> o.forceCloudflared && o.proxyCommand == ""
    ensures r.Servers? ==>
      Acceptable(lines, o) && AllDescribed(lines, o, r.servers) && ServerAddrs(r.servers) == FileAddrs(lines)
    ensures r.BadLine? ==>
      && r.at < |lines| && Acceptable(lines[..r.at], o)
      && NamesServer(lines[r.at]) && LineError(Split(lines[r.at], ':'), o) == Some(r.error)
  {
    hide LineError, HostPort, Atoi, Split, Describes, LineAddr, Acceptable, AllDescribed, FileAddrs, ServerAddrs;
    if o.forceCloudflared && o.proxyCommand == "" {
      return NoProxyCommand;
    }
    var servers: seq<Server> := [];
    NothingRead(lines, o);
    for i := 0 to |lines|
      invariant Acceptable(lines[..i], o) && AllDescribed(lines[..i], o, servers)
    {
      var line := lines[i];
      if line == "" || line[0] == '#' {
        LineSkipped(lines, i, o, servers);
        continue;
      }
      var parsed := ParseServerLine(line, o);
      match parsed {
        case Error(error) => return BadLine(i, error);
        case Ok(server) =>
          LineRead(lines, i, o, servers, server);
          servers := servers + [server];
      }
    }
    assert lines[..|lines|] == lines;
    DescribedAddrs(lines, o, servers);
    return Servers(servers);
  }

  lemma LineAddrIsProper(line: string)
    ensures IsUpstreamAddr(LineAddr(line))
  {
    FieldsHaveNoSeparator(line, ':');
    var f := Split(line, ':');
    assert f[0] in f;
  }

  /** No host of a servers file has a colon, whatever the file says. */
  lemma {:induction false} FileAddrsAreProper(lines: seq<string>)
    ensures forall addr :: addr in FileAddrs(lines) ==> IsUpstreamAddr(addr)
  {
    if lines != [] {
      FileAddrsAreProper(lines[..|lines| - 1]);
      LineAddrIsProper(lines[|lines| - 1]);
    }
  }

  /** Writing host:port:password and splitting it again gives the three parts and the port's value. */
  lemma ServerLineRoundTrip(host: string, port: int, password: string)
    requires ':' !in host && ':' !in password && FitsInt64(port)
    ensures var f := Split(HostPort(host, port) + ":" + password, ':');
      f == [host, Decimal(port), password] && Atoi(f[1]) == Some(port)
  {
    DecimalHasNoSeparator(port);
    var tail := Decimal(port) + ":" + password;
    assert HostPort(host, port) + ":" + password == host + [':'] + tail;
    SplitAtSeparator(host, ':', tail);
    SplitAtSeparator(Decimal(port), ':', password);
    SplitWithoutSeparator(password, ':');
    AtoiOfDecimal(port);
  }
}
