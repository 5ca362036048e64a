/** The SOCKS5 side of a connection: reading the request and writing the replies (RFC 1928). */
module Socks5 {
  import opened Basics

  type byte = b: int | 0 <= b < 256

  const VERSION: byte := 5
  const CMD_CONNECT: byte := 1
  const ATYP_IPV4: byte := 1
  const ATYP_DOMAIN: byte := 3
  const ATYP_IPV6: byte := 4
  const REPLY_SUCCEEDED: byte := 0
  const REPLY_GENERAL: byte := 1
  const REPLY_COMMAND: byte := 7
  const REPLY_ADDRESS: byte := 8

  datatype Host = IPv4(octets: seq<byte>) | Domain(name: seq<byte>) | IPv6(octets: seq<byte>)

  datatype Target = Target(host: Host, port: nat)

  predicate ValidTarget(t: Target) {
    && t.port < 0x1_0000
    && match t.host
       case IPv4(octets) => |octets| == 4
       case Domain(name) => |name| < 256
       case IPv6(octets) => |octets| == 16
  }

  // ---------- the wire format, as section 4 of RFC 1928 gives it ----------

  function AddressType(h: Host): byte {
    match h
    case IPv4(_) => ATYP_IPV4
    case Domain(_) => ATYP_DOMAIN
    case IPv6(_) => ATYP_IPV6
  }

  function AddressBytes(t: Target): seq<byte>
    requires ValidTarget(t)
  {
    match t.host
    case IPv4(octets) => octets
    case Domain(name) => [|name|] + name
    case IPv6(octets) => octets
  }

  /** Version, CONNECT, a reserved byte, address type, address, port with the high byte first. */
  function ConnectRequest(t: Target, reserved: byte): seq<byte>
    requires ValidTarget(t)
  {
    [VERSION, CMD_CONNECT, reserved, AddressType(t.host)] + AddressBytes(t) + [t.port / 256, t.port % 256]
  }

  /** Version and a non-empty list of methods, as section 3 gives it. */
  function Greeting(methods: seq<byte>): seq<byte>
    requires 0 < |methods| < 256
  {
    [VERSION, |methods|] + methods
  }

  const METHOD_CHOSEN: seq<byte> := [5, 0]

  /** A reply of section 6 with a zero IPv4 address and port. */
  function Reply(code: byte): seq<byte> {
    [VERSION, code, 0, ATYP_IPV4, 0, 0, 0, 0, 0, 0]
  }

  // ---------- what the handler makes of a stream ----------

  function BigEndian(high: byte, low: byte): nat {
    high as int * 256 + low as int
  }

  datatype Decoded = Decoded(target: Target, length: nat)

  function WithPort(input: seq<byte>, host: Host, at: nat): Option<Decoded> {
    if at + 2 <= |input| then Some(Decoded(Target(host, BigEndian(input[at], input[at + 1])), at + 2)) else None
  }

  /** The target of a CONNECT request at the start of the stream, and the length of the request. */
  function Decode(input: seq<byte>): Option<Decoded> {
    if |input| < 4 || input[0] != VERSION || input[1] != CMD_CONNECT then None
    else if input[3] == ATYP_IPV4 then
      if |input| < 8 then None else WithPort(input, IPv4(input[4..8]), 8)
    else if input[3] == ATYP_DOMAIN then
      if |input| < 5 || |input| < 5 + input[4] as int then None
      else WithPort(input, Domain(input[5..5 + input[4] as int]), 5 + input[4] as int)
    else if input[3] == ATYP_IPV6 then
      if |input| < 20 then None else WithPort(input, IPv6(input[4..20]), 20)
    else None
  }

  /** The reply to a request that cannot be served, if it gets one. */
  function Rejection(input: seq<byte>): seq<byte> {
    if |input| < 4 || input[0] != VERSION then []
    else if input[1] != CMD_CONNECT then Reply(REPLY_COMMAND)
    else if input[3] != ATYP_IPV4 && input[3] != ATYP_DOMAIN && input[3] != ATYP_IPV6 then Reply(REPLY_ADDRESS)
    else []
  }

  /** The length of a well-formed greeting at the start of the stream. */
  function GreetingLength(input: seq<byte>): Option<nat> {
    if |input| < 2 || input[0] != VERSION || input[1] == 0 || |input| < 2 + input[1] as int then None
    else Some(2 + input[1] as int)
  }

  /** What is written in answer to a request. */
  function Answer(request: seq<byte>, dialled: bool): seq<byte> {
    if Decode(request) == None then Rejection(request)
    else Reply(if dialled then REPLY_SUCCEEDED else REPLY_GENERAL)
  }

  /** Everything that the handler itself writes, up to the tunnel. */
  function Output(input: seq<byte>, dialled: bool): seq<byte> {
    match GreetingLength(input)
    case None => []
    case Some(n) =>
      METHOD_CHOSEN + Answer(input[n..], dialled)
  }

  // ---------- the bytes of the wire ----------

  /** The bytes of a CONNECT request, as section 4 gives them. */
  lemma RequestBytes(t: Target, reserved: byte)
    requires ValidTarget(t)
    ensures var port := [t.port / 256, t.port % 256];
      match t.host
      case IPv4(octets) => ConnectRequest(t, reserved) == [5, 1, reserved, 1] + octets + port
      case Domain(name) => ConnectRequest(t, reserved) == [5, 1, reserved, 3] + ([|name|] + name) + port
      case IPv6(octets) => ConnectRequest(t, reserved) == [5, 1, reserved, 4] + octets + port
  {
  }

  /** A greeting is accepted exactly if it is of version 5 and brings the methods it announces, at least one. */
  lemma GreetingBytes(input: seq<byte>)
    ensures GreetingLength(input).Some?
      <==> |input| >= 2 && input[0] == 5 && input[1] > 0 && |input| >= 2 + input[1] as int
    ensures GreetingLength(input).Some? ==> GreetingLength(input).value == 2 + input[1] as int
  {
  }

  /**
   The bytes that answer a request. A command other than CONNECT gets reply 7, an unknown address
   type reply 8, a whole CONNECT request reply 0 or 1 by the outcome of the dial. A request of
   another version, or one that breaks off, gets nothing.
   */
  lemma AnswerBytes(request: seq<byte>, dialled: bool)
    ensures var a := Answer(request, dialled);
      if |request| < 4 || request[0] != 5 then a == []
      else if request[1] != 1 then a == [5, 7, 0, 1, 0, 0, 0, 0, 0, 0]
      else if request[3] != 1 && request[3] != 3 && request[3] != 4 then a == [5, 8, 0, 1, 0, 0, 0, 0, 0, 0]
      else if Decode(request) == None then a == []
      else a == [5, if dialled then 0 else 1, 0, 1, 0, 0, 0, 0, 0, 0]
  {
  }

  /** The handler writes nothing before a greeting it accepts, then the choice of no authentication and the answer. */
  lemma OutputBytes(input: seq<byte>, dialled: bool)
    ensures var n := GreetingLength(input);
      Output(input, dialled) == if n == None then [] else [5, 0] + Answer(input[n.value..], dialled)
  {
    hide Answer, GreetingLength;
    assert METHOD_CHOSEN == [5, 0];
  }

  // ---------- decoding inverts encoding ----------

  lemma DecodeOfRequest(t: Target, reserved: byte, rest: seq<byte>)
    requires ValidTarget(t)
    ensures Decode(ConnectRequest(t, reserved) + rest) == Some(Decoded(t, |ConnectRequest(t, reserved)|))
  {
    var head := [VERSION, CMD_CONNECT, reserved, AddressType(t.host)];
    var tail := [t.port / 256, t.port % 256] + rest;
    var input := ConnectRequest(t, reserved) + rest;
    assert input == head + AddressBytes(t) + tail;
    Middle(head, AddressBytes(t), tail);
    PortAfter(input, t, tail);
    match t.host
    case IPv4(octets) =>
    case IPv6(octets) =>
    case Domain(name) =>
      assert input == head + [|name|] + name + tail;
      Middle(head + [|name|], name, tail);
      assert input[4] == |name|;
  }

  lemma PortAfter(input: seq<byte>, t: Target, tail: seq<byte>)
    requires ValidTarget(t) && |tail| >= 2 && tail[0] == t.port / 256 && tail[1] == t.port % 256
    requires |input| == 4 + |AddressBytes(t)| + |tail| && input[4 + |AddressBytes(t)|..] == tail
    ensures var at := 4 + |AddressBytes(t)|; WithPort(input, t.host, at) == Some(Decoded(t, at + 2))
  {
    var at := 4 + |AddressBytes(t)|;
    assert input[at] == input[at..][0] && input[at + 1] == input[at..][1];
  }

  lemma RequestOfDecoded(input: seq<byte>)
    requires Decode(input).Some?
    ensures var d := Decode(input).value;
      && ValidTarget(d.target)
      && d.length == |ConnectRequest(d.target, input[2])| <= |input|
      && input[..d.length] == ConnectRequest(d.target, input[2])
  {
    var d := Decode(input).value;
    var hi, lo := input[d.length - 2], input[d.length - 1];
    assert d.target.port == BigEndian(hi, lo);
    assert d.target.port / 256 == hi && d.target.port % 256 == lo;
    assert ValidTarget(d.target);
    assert input[..4] == [VERSION, CMD_CONNECT, input[2], AddressType(d.target.host)];
    assert input[4..d.length - 2] == AddressBytes(d.target);
    hide Decode, AddressBytes, AddressType, ValidTarget, BigEndian;
    assert input[..d.length] == input[..4] + input[4..d.length - 2] + [hi, lo];
  }

  ghost predicate StartsWithRequest(input: seq<byte>, t: Target, n: nat) {
    ValidTarget(t) && exists reserved :: ConnectRequest(t, reserved) <= input && n == |ConnectRequest(t, reserved)|
  }

  lemma PrefixOf(a: seq<byte>, s: seq<byte>)
    requires |a| <= |s| && s[..|a|] == a
    ensures a <= s
  {
  }

  /** A stream decodes to a target exactly if it starts with a CONNECT request for it, which is all that is consumed. */
  lemma DecodeIff(input: seq<byte>, t: Target, n: nat)
    ensures Decode(input) == Some(Decoded(t, n)) <==> StartsWithRequest(input, t, n)
  {
    if StartsWithRequest(input, t, n) {
      var reserved :| ConnectRequest(t, reserved) <= input && n == |ConnectRequest(t, reserved)|;
      assert input == ConnectRequest(t, reserved) + input[n..];
      DecodeOfRequest(t, reserved, input[n..]);
    }
    if Decode(input) == Some(Decoded(t, n)) {
      RequestOfDecoded(input);
      PrefixOf(ConnectRequest(t, input[2]), input);
    }
  }

  // ---------- what the client sees ----------

  /** Nothing, the method choice, or the method choice and one 10-byte reply; success only after a dial. */
  lemma OutputShape(input: seq<byte>, dialled: bool)
    ensures var out := Output(input, dialled);
      || out == []
      || out == METHOD_CHOSEN
      || out == METHOD_CHOSEN + Reply(REPLY_GENERAL)
      || out == METHOD_CHOSEN + Reply(REPLY_COMMAND)
      || out == METHOD_CHOSEN + Reply(REPLY_ADDRESS)
      || (out == METHOD_CHOSEN + Reply(REPLY_SUCCEEDED) && dialled)
  {
    if GreetingLength(input).Some? {
      var request := input[GreetingLength(input).value..];
      if Decode(request).Some? {
        assert Output(input, dialled) == METHOD_CHOSEN + Reply(if dialled then REPLY_SUCCEEDED else REPLY_GENERAL);
      } else if Rejection(request) == [] {
        assert Output(input, dialled) == METHOD_CHOSEN;
      }
    }
  }

  /** A conversation that the handler serves: a greeting, then a CONNECT request. */
  ghost predicate ValidConversation(input: seq<byte>, t: Target) {
    ValidTarget(t) && exists methods: seq<byte>, reserved ::
      0 < |methods| < 256 && Greeting(methods) + ConnectRequest(t, reserved) <= input
  }

  lemma GreetingOf(methods: seq<byte>, rest: seq<byte>)
    requires 0 < |methods| < 256
    ensures GreetingLength(Greeting(methods) + rest) == Some(|Greeting(methods)|)
    ensures (Greeting(methods) + rest)[|Greeting(methods)|..] == rest
  {
  }

  lemma GreetingInInput(input: seq<byte>)
    requires GreetingLength(input).Some?
    ensures var n := GreetingLength(input).value;
      2 < n <= |input| && n < 258 && input[..n] == Greeting(input[2..n])
  {
  }

  /** The stream holds a greeting and then a request that decodes. */
  predicate Serves(input: seq<byte>) {
    GreetingLength(input).Some? && Decode(input[GreetingLength(input).value..]).Some?
  }

  lemma ConversationServes(input: seq<byte>, t: Target)
    requires ValidConversation(input, t)
    ensures Serves(input) && Decode(input[GreetingLength(input).value..]).value.target == t
  {
    var methods: seq<byte>, reserved :|
      0 < |methods| < 256 && Greeting(methods) + ConnectRequest(t, reserved) <= input;
    var rest := input[|Greeting(methods) + ConnectRequest(t, reserved)|..];
    hide Greeting, GreetingLength, ConnectRequest, Decode;
    assert input == Greeting(methods) + (ConnectRequest(t, reserved) + rest);
    GreetingOf(methods, ConnectRequest(t, reserved) + rest);
    DecodeOfRequest(t, reserved, rest);
  }

  lemma ServesConversation(input: seq<byte>) returns (t: Target)
    requires Serves(input)
    ensures ValidConversation(input, t)
  {
    var n := GreetingLength(input).value;
    GreetingInInput(input);
    hide GreetingLength, Greeting, Decode, ConnectRequest, ValidTarget;
    RequestOfDecoded(input[n..]);
    var d := Decode(input[n..]).value;
    t := d.target;
    assert input == input[..n] + input[n..];
    assert Greeting(input[2..n]) + ConnectRequest(t, input[n..][2]) <= input;
  }

  ghost predicate HasConversation(input: seq<byte>) {
    exists t :: ValidConversation(input, t)
  }

  lemma ServesIff(input: seq<byte>)
    ensures Serves(input) <==> HasConversation(input)
  {
    if Serves(input) {
      var t := ServesConversation(input);
    }
    if HasConversation(input) {
      var t :| ValidConversation(input, t);
      ConversationServes(input, t);
    }
  }

  /** The client is told of success exactly if it held a valid conversation and the dial succeeded. */
  lemma SuccessIff(input: seq<byte>, dialled: bool)
    ensures Output(input, dialled) == METHOD_CHOSEN + Reply(REPLY_SUCCEEDED) <==> dialled && HasConversation(input)
  {
    ServesIff(input);
    var out, success := Output(input, dialled), METHOD_CHOSEN + Reply(REPLY_SUCCEEDED);
    hide Decode, HasConversation;
    assert success[3] == REPLY_SUCCEEDED;
    if out == success {
      assert out[3] == REPLY_SUCCEEDED;
    }
  }

  // ---------- the handler ----------

  /** The client's end of a connection: what it sends before closing, and what it has been sent. */
  class Conn {
    const input: seq<byte>
    var pos: nat
    var output: seq<byte>

    predicate Valid()
      reads this
    {
      pos <= |input|
    }

    /** What the client has sent and the handler has not read. */
    function Unread(): seq<byte>
      requires Valid()
      reads this
    {
      input[pos..]
    }

    constructor (input: seq<byte>)
      ensures Valid() && this.input == input && pos == 0 && output == []
    {
      this.input, pos, output := input, 0, [];
    }

    /** io.ReadFull: `n` bytes, or an error after reading what there is. */
    method ReadFull(n: nat) returns (ok: bool, bytes: seq<byte>)
      requires Valid()
      modifies this`pos
      ensures Valid()
      ensures ok <==> n <= |old(Unread())|
      ensures ok ==> bytes == old(Unread())[..n] && Unread() == old(Unread())[n..] && pos == old(pos) + n
    {
      if pos + n <= |input| {
        bytes := input[pos..pos + n];
        pos := pos + n;
        return true, bytes;
      }
      pos := |input|;
      return false, [];
    }

    method Write(bytes: seq<byte>)
      modifies this`output
      ensures output == old(output) + bytes
    {
      output := output + bytes;
    }
  }

  method ReadSocks5Target(conn: Conn) returns (target: Option<Target>)
    requires conn.Valid()
    modifies conn
    ensures conn.Valid()
    ensures var d := Decode(old(conn.Unread()));
      && (target == None <==> d == None)
      && (target.Some? ==> target.value == d.value.target && conn.pos == old(conn.pos) + d.value.length)
      && conn.output == old(conn.output) + (if target.Some? then [] else Rejection(old(conn.Unread())))
  {
    ghost var input := conn.Unread();
    var ok, header := conn.ReadFull(4);
    if !ok || header[0] != VERSION {
      return None;
    }
    if header[1] != CMD_CONNECT {
      conn.Write(Reply(REPLY_COMMAND));
      return None;
    }
    if header[3] != ATYP_IPV4 && header[3] != ATYP_DOMAIN && header[3] != ATYP_IPV6 {
      conn.Write(Reply(REPLY_ADDRESS));
      return None;
    }
    hide Reply;
    var host := ReadHost(conn, header[3], input);
    if host == None {
      return None;
    }
    var portBuf;
    ok, portBuf := conn.ReadFull(2);
    if !ok { return None; }
    return Some(Target(host.value, BigEndian(portBuf[0], portBuf[1])));
  }

  /** The length that Decode gives to the address part, and whether the stream holds it. */
  function HostEnd(input: seq<byte>): nat
    requires |input| >= 4
  {
    if input[3] == ATYP_IPV4 then 8
    else if input[3] == ATYP_IPV6 then 20
    else if |input| < 5 then 5 else 5 + input[4] as int
  }

  /** The address of a request whose header has been read; `input` is the request from its start. */
  method ReadHost(conn: Conn, addressType: byte, ghost input: seq<byte>) returns (host: Option<Host>)
    requires conn.Valid() && |input| >= 4 && conn.Unread() == input[4..] && addressType == input[3]
    requires addressType == ATYP_IPV4 || addressType == ATYP_DOMAIN || addressType == ATYP_IPV6
    modifies conn`pos
    ensures conn.Valid()
    ensures host.Some? <==> HostEnd(input) <= |input|
    ensures host.Some? ==>
      && conn.Unread() == input[HostEnd(input)..] && conn.pos == old(conn.pos) - 4 + HostEnd(input)
      && host.value == if addressType == ATYP_IPV4 then IPv4(input[4..8])
                       else if addressType == ATYP_IPV6 then IPv6(input[4..20])
                       else Domain(input[5..HostEnd(input)])
  {
    var ok, addr;
    if addressType == ATYP_IPV4 {
      ok, addr := conn.ReadFull(4);
      return if ok then Some(IPv4(addr)) else None;
    }
    if addressType == ATYP_IPV6 {
      ok, addr := conn.ReadFull(16);
      return if ok then Some(IPv6(addr)) else None;
    }
    var lenBuf;
    ok, lenBuf := conn.ReadFull(1);
    if !ok {
      return None;
    }
    assert lenBuf[0] == input[4];
    ok, addr := conn.ReadFull(lenBuf[0]);
    return if ok then Some(Domain(addr)) else None;
  }

  /** The start of HandleSocks5Connection: the greeting is read; which methods it offers does not matter. */
  method ReadGreeting(conn: Conn) returns (ok: bool)
    requires conn.Valid()
    modifies conn`pos
    ensures conn.Valid()
    ensures ok <==> GreetingLength(old(conn.Unread())).Some?
    ensures ok ==> conn.Unread() == old(conn.Unread())[GreetingLength(old(conn.Unread())).value..]
  {
    var hello, methods;
    ok, hello := conn.ReadFull(2);
    if !ok || hello[0] != VERSION {
      return false;
    }
    var methodCount := hello[1];
    if methodCount == 0 {
      return false;
    }
    ok, methods := conn.ReadFull(methodCount);
  }

  /** The rest of it, once the method choice has been written: the request, the dial, the reply. */
  method AnswerRequest(conn: Conn, dialled: bool) returns (target: Option<Target>)
    requires conn.Valid()
    modifies conn
    ensures conn.output == old(conn.output) + Answer(old(conn.Unread()), dialled)
    ensures var d := Decode(old(conn.Unread()));
      if d == None then target == None else target == Some(d.value.target)
  {
    hide Decode, Rejection, Reply;
    target := ReadSocks5Target(conn);
    if target == None {
      return None;
    }
    if !dialled {
      conn.Write(Reply(REPLY_GENERAL));
      return;
    }
    conn.Write(Reply(REPLY_SUCCEEDED));
  }

  /** HandleSocks5Connection up to the tunnel; `dialled` is the outcome of DialTargetWithRetries. */
  method HandleSocks5(conn: Conn, dialled: bool) returns (target: Option<Target>)
    requires conn.Valid() && conn.pos == 0 && conn.output == []
    modifies conn
    ensures conn.output == Output(conn.input, dialled)
    ensures target.Some? <==> HasConversation(conn.input)
    ensures target.Some? ==> ValidConversation(conn.input, target.value)
  {
    hide Decode, ValidConversation, HasConversation, Answer, GreetingLength;
    ghost var input := conn.input;
    ServesIff(input);
    if Serves(input) {
      ghost var t := ServesConversation(input);
      ConversationServes(input, t);
    }
    assert conn.Unread() == input;
    var ok := ReadGreeting(conn);
    if !ok {
      return None;
    }
    conn.Write(METHOD_CHOSEN);
    assert conn.output == METHOD_CHOSEN;
    target := AnswerRequest(conn, dialled);
  }
}
