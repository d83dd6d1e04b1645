/**
 The SOCKS5 front end (`parse_socks5_request` in `src/server.rs`; sections 3, 4 and 6 of RFC 1928,
 section 2 of RFC 1929), from after the first version byte.

 What arrives before the deadline is `input`; the end of it, a closed socket and a timeout are all the
 same to the parser. The host is kept as the bytes on the wire.
 */
module Socks5 {
  import opened Wrappers

  datatype Login = Login(user: bytes, password: bytes)

  datatype Host = Ip4(octets: bytes) | Ip6(octets: bytes) | Name(octets: bytes)

  /** What a client says: `version` and `reserved` are bytes the server does not look at. */
  datatype Handshake = Handshake(methods: bytes, version: byte, login: Login, reserved: byte, host: Host, port: nat)

  const NO_AUTH: byte := 0x00
  const USER_PASS: byte := 0x02

  /** What the server writes. */
  datatype Reply =
    | Use(chosen: byte)
    | NoAcceptableMethod
    | LoginOk
    | LoginFailed
    | CommandUnsupported
    | AddressUnsupported
  {
    function Encode(): bytes {
      match this
      case Use(m) => [0x05, m]
      case NoAcceptableMethod => [0x05, 0xFF]
      case LoginOk => [0x01, 0x00]
      case LoginFailed => [0x01, 0x01]
      case CommandUnsupported => [0x05, 0x07, 0x00, 0x01, 0, 0, 0, 0, 0, 0]
      case AddressUnsupported => [0x05, 0x08, 0x00, 0x01, 0, 0, 0, 0, 0, 0]
    }
  }

  // ----- The printer -----

  function Counted(data: bytes): bytes
    requires |data| < 256
  {
    [|data|] + data
  }

  predicate ValidHost(h: Host) {
    match h
    case Ip4(o) => |o| == 4
    case Ip6(o) => |o| == 16
    case Name(o) => |o| < 256
  }

  function PrintHost(h: Host): bytes
    requires ValidHost(h)
  {
    match h
    case Ip4(o) => [0x01] + o
    case Ip6(o) => [0x04] + o
    case Name(o) => [0x03] + Counted(o)
  }

  function PrintPort(port: nat): bytes
    requires port < 65536
  {
    [port / 256, port % 256]
  }

  /** What the fields have room for. */
  predicate Printable(h: Handshake) {
    && |h.methods| < 256 && |h.login.user| < 256 && |h.login.password| < 256
    && ValidHost(h.host) && h.port < 65536
  }

  function PrintLogin(h: Handshake): bytes
    requires Printable(h)
  {
    [h.version] + Counted(h.login.user) + Counted(h.login.password)
  }

  function PrintRequest(h: Handshake): bytes
    requires Printable(h)
  {
    [0x05, 0x01, h.reserved] + PrintHost(h.host) + PrintPort(h.port)
  }

  /** The whole handshake, with a login when the server asks for one. */
  function Print(h: Handshake, auth: Option<Login>): bytes
    requires Printable(h)
  {
    Counted(h.methods) + (if auth.Some? then PrintLogin(h) else []) + PrintRequest(h)
  }

  /** What the server accepts: the method it wants is offered, and the login is the expected one. */
  predicate Acceptable(h: Handshake, auth: Option<Login>) {
    if auth.Some? then USER_PASS in h.methods && h.login == auth.value else NO_AUTH in h.methods
  }

  // ----- What the parser is to answer -----

  /** The replies sent, and the request with the bytes after it, if one was accepted. */
  datatype Answer = Answer(replies: seq<Reply>, request: Option<(Host, int)>, rest: bytes)

  function Refuse(replies: seq<Reply>, rest: bytes): Answer {
    Answer(replies, None, rest)
  }

  /** `u16::from_be_bytes`. */
  function BigEndian(high: int, low: int): int {
    256 * high + low
  }

  /** `read_exact`: all of it or nothing. */
  function Take(s: bytes, n: nat): Option<(bytes, bytes)> {
    if n <= |s| then Some((s[..n], s[n..])) else None
  }

  /** A length byte and as many more. */
  function TakeCounted(s: bytes): Option<(bytes, bytes)> {
    if s == [] then None else Take(s[1..], s[0])
  }

  function TakeLogin(s: bytes): Option<(Login, bytes)> {
    if s == [] then None
    else
      match TakeCounted(s[1..])
      case None => None
      case Some((user, more)) =>
        match TakeCounted(more)
        case None => None
        case Some((password, rest)) => Some((Login(user, password), rest))
  }

  function TakeHost(s: bytes): Option<(Host, bytes)>
    requires s != []
  {
    var body := match s[0]
      case 0x01 => Take(s[1..], 4)
      case 0x04 => Take(s[1..], 16)
      case _ => TakeCounted(s[1..]);
    match body
    case None => None
    case Some((o, rest)) => Some((if s[0] == 0x01 then Ip4(o) else if s[0] == 0x04 then Ip6(o) else Name(o), rest))
  }

  function AnswerRequest(s: bytes, replies: seq<Reply>): Answer {
    if |s| < 4 then Refuse(replies, [])
    else if s[0] != 0x05 then Refuse(replies, s[4..])
    else if s[1] != 0x01 then Refuse(replies + [CommandUnsupported], s[4..])
    else if s[3] !in {0x01, 0x03, 0x04} then Refuse(replies + [AddressUnsupported], s[4..])
    else
      match TakeHost(s[3..])
      case None => Refuse(replies, [])
      case Some((host, more)) =>
        match Take(more, 2)
        case None => Refuse(replies, [])
        case Some((port, rest)) => Answer(replies, Some((host, BigEndian(port[0], port[1]))), rest)
  }

  function AnswerLogin(s: bytes, expected: Login): Answer {
    match TakeLogin(s)
    case None => Refuse([Use(USER_PASS)], [])
    case Some((login, rest)) =>
      if login == expected then AnswerRequest(rest, [Use(USER_PASS), LoginOk])
      else Refuse([Use(USER_PASS), LoginFailed], rest)
  }

  function AnswerTo(s: bytes, auth: Option<Login>): Answer {
    match TakeCounted(s)
    case None => Refuse([], [])
    case Some((methods, rest)) =>
      var wanted := if auth.Some? then USER_PASS else NO_AUTH;
      if wanted !in methods then Refuse([NoAcceptableMethod], rest)
      else if auth.Some? then AnswerLogin(rest, auth.value)
      else AnswerRequest(rest, [Use(NO_AUTH)])
  }

  // ----- The parser inverts the printer -----

  lemma CountedTakes(data: bytes, rest: bytes)
    requires |data| < 256
    ensures TakeCounted(Counted(data) + rest) == Some((data, rest))
  {
    assert (Counted(data) + rest)[1..] == data + rest;
  }

  lemma TakesCounted(s: bytes)
    requires TakeCounted(s).Some?
    ensures var (data, rest) := TakeCounted(s).value; |data| < 256 && s == Counted(data) + rest
  {
  }

  lemma LoginTakes(h: Handshake, rest: bytes)
    requires Printable(h)
    ensures TakeLogin(PrintLogin(h) + rest) == Some((h.login, rest))
  {
    var s := PrintLogin(h) + rest;
    CountedTakes(h.login.password, rest);
    CountedTakes(h.login.user, Counted(h.login.password) + rest);
    assert s[1..] == Counted(h.login.user) + (Counted(h.login.password) + rest);
  }

  lemma Takes(o: bytes, rest: bytes)
    ensures Take(o + rest, |o|) == Some((o, rest))
  {
  }

  lemma Tail(b: byte, s: bytes)
    ensures ([b] + s)[1..] == s && ([b] + s)[0] == b
  {
  }

  lemma Cons(kind: byte, o: bytes, rest: bytes)
    ensures [kind] + o + rest == [kind] + (o + rest)
  {
  }

  lemma NameTakes(o: bytes, rest: bytes)
    requires |o| < 256
    ensures TakeHost([0x03] + Counted(o) + rest) == Some((Name(o), rest))
  {
    CountedTakes(o, rest);
    Cons(0x03, Counted(o), rest);
    Tail(0x03, Counted(o) + rest);
  }

  lemma NumberTakes(kind: byte, o: bytes, rest: bytes)
    requires (kind == 0x01 && |o| == 4) || (kind == 0x04 && |o| == 16)
    ensures TakeHost([kind] + (o + rest)) == Some((if kind == 0x01 then Ip4(o) else Ip6(o), rest))
  {
    Takes(o, rest);
    Tail(kind, o + rest);
  }

  lemma HostTakes(h: Host, rest: bytes)
    requires ValidHost(h)
    ensures TakeHost(PrintHost(h) + rest) == Some((h, rest))
  {
    if h.Name? {
      NameTakes(h.octets, rest);
    } else {
      var kind := if h.Ip4? then 0x01 else 0x04;
      Cons(kind, h.octets, rest);
      NumberTakes(kind, h.octets, rest);
    }
  }

  lemma RequestParts(h: Handshake, rest: bytes)
    requires Printable(h)
    ensures var s := PrintRequest(h) + rest;
      && |s| >= 4 && s[0] == 0x05 && s[1] == 0x01 && s[3] in {0x01, 0x03, 0x04}
      && s[3..] == PrintHost(h.host) + (PrintPort(h.port) + rest)
  {
    var s := PrintRequest(h) + rest;
    assert s[3..] == PrintHost(h.host) + (PrintPort(h.port) + rest);
    assert s[3] == s[3..][0] == PrintHost(h.host)[0];
  }

  lemma PortTakes(port: nat, rest: bytes)
    requires port < 65536
    ensures Take(PrintPort(port) + rest, 2) == Some((PrintPort(port), rest))
    ensures BigEndian(PrintPort(port)[0], PrintPort(port)[1]) == port
  {
    Takes(PrintPort(port), rest);
  }

  lemma RequestAnswered(h: Handshake, rest: bytes, replies: seq<Reply>)
    requires Printable(h)
    ensures AnswerRequest(PrintRequest(h) + rest, replies) == Answer(replies, Some((h.host, h.port)), rest)
  {
    RequestParts(h, rest);
    HostTakes(h.host, PrintPort(h.port) + rest);
    PortTakes(h.port, rest);
  }

  function Replies(auth: Option<Login>): seq<Reply> {
    if auth.Some? then [Use(USER_PASS), LoginOk] else [Use(NO_AUTH)]
  }

  /** A printed handshake is accepted, is read back, and not a byte of the tunnel after it is consumed. */
  lemma PrintedIsAccepted(h: Handshake, auth: Option<Login>, rest: bytes)
    requires Printable(h) && Acceptable(h, auth)
    ensures AnswerTo(Print(h, auth) + rest, auth) == Answer(Replies(auth), Some((h.host, h.port)), rest)
  {
    var request := PrintRequest(h) + rest;
    var more := (if auth.Some? then PrintLogin(h) else []) + request;
    var middle := if auth.Some? then PrintLogin(h) else [];
    Regroup(Counted(h.methods), middle, PrintRequest(h), rest);
    CountedTakes(h.methods, more);
    if auth.Some? {
      LoginTakes(h, request);
    } else {
      assert more == request;
    }
    RequestAnswered(h, rest, Replies(auth));
  }

  /** What an accepted request is made of. */
  lemma RequestTaken(s: bytes, replies: seq<Reply>) returns (host: Host, more: bytes)
    requires AnswerRequest(s, replies).request.Some?
    ensures |s| >= 4 && s[..2] == [0x05, 0x01] && s[3] in {0x01, 0x03, 0x04}
    ensures TakeHost(s[3..]) == Some((host, more)) && |more| >= 2
    ensures AnswerRequest(s, replies) == Answer(replies, Some((host, BigEndian(more[0], more[1]))), more[2..])
  {
    host, more := TakeHost(s[3..]).value.0, TakeHost(s[3..]).value.1;
  }

  lemma PortTaken(more: bytes)
    requires |more| >= 2
    ensures more == PrintPort(BigEndian(more[0], more[1])) + more[2..]
  {
  }

  lemma HeadTaken(s: bytes, o: bytes)
    requires |s| >= 4 && s[..2] == [0x05, 0x01] && s[3..] == o
    ensures s == [0x05, 0x01, s[2]] + o
  {
    assert s == s[..2] + [s[2]] + s[3..];
  }

  lemma AnsweredRequest(s: bytes, replies: seq<Reply>) returns (reserved: byte, host: Host, port: nat)
    requires AnswerRequest(s, replies).request.Some?
    ensures AnswerRequest(s, replies).request == Some((host, port)) && ValidHost(host) && port < 65536
    ensures AnswerRequest(s, replies).replies == replies
    ensures s == [0x05, 0x01, reserved] + PrintHost(host) + PrintPort(port) + AnswerRequest(s, replies).rest
  {
    var more;
    host, more := RequestTaken(s, replies);
    reserved, port := s[2], BigEndian(more[0], more[1]);
    HostTaken(s[3..]);
    PortTaken(more);
    HeadTaken(s, PrintHost(host) + more);
    Regroup([0x05, 0x01, reserved], PrintHost(host), PrintPort(port), more[2..]);
  }

  lemma HostTaken(s: bytes)
    requires s != [] && s[0] in {0x01, 0x03, 0x04} && TakeHost(s).Some?
    ensures var (host, rest) := TakeHost(s).value; ValidHost(host) && s == PrintHost(host) + rest
  {
    if s[0] == 0x03 {
      TakesCounted(s[1..]);
    }
  }

  lemma LoginTaken(s: bytes)
    requires TakeLogin(s).Some?
    ensures var (login, rest) := TakeLogin(s).value;
      |login.user| < 256 && |login.password| < 256
      && s == [s[0]] + Counted(login.user) + Counted(login.password) + rest
  {
    TakesCounted(s[1..]);
    TakesCounted(TakeCounted(s[1..]).value.1);
    assert s == [s[0]] + s[1..];
  }

  lemma AcceptedWithoutLogin(s: bytes) returns (h: Handshake)
    requires AnswerTo(s, None).request.Some?
    ensures Printable(h) && Acceptable(h, None)
    ensures s == Print(h, None) + AnswerTo(s, None).rest
    ensures AnswerTo(s, None) == Answer(Replies(None), Some((h.host, h.port)), AnswerTo(s, None).rest)
  {
    var (methods, more) := TakeCounted(s).value;
    TakesCounted(s);
    var reserved, host, port := AnsweredRequest(more, Replies(None));
    h := Handshake(methods, 0, Login([], []), reserved, host, port);
    var rest := AnswerTo(s, None).rest;
    assert AnswerTo(s, None) == AnswerRequest(more, Replies(None));
    assert more == PrintRequest(h) + rest;
    Regroup(Counted(methods), [], PrintRequest(h), rest);
    assert [] + more == more;
  }

  lemma Regroup(a: bytes, b: bytes, c: bytes, d: bytes)
    ensures a + (b + (c + d)) == a + b + c + d
  {
  }

  lemma AcceptedWithLogin(s: bytes, expected: Login) returns (h: Handshake)
    requires AnswerTo(s, Some(expected)).request.Some?
    ensures Printable(h) && Acceptable(h, Some(expected))
    ensures s == Print(h, Some(expected)) + AnswerTo(s, Some(expected)).rest
    ensures AnswerTo(s, Some(expected))
         == Answer(Replies(Some(expected)), Some((h.host, h.port)), AnswerTo(s, Some(expected)).rest)
  {
    var (methods, more) := TakeCounted(s).value;
    TakesCounted(s);
    var (login, request) := TakeLogin(more).value;
    LoginTaken(more);
    var reserved, host, port := AnsweredRequest(request, Replies(Some(expected)));
    h := Handshake(methods, more[0], login, reserved, host, port);
    var rest := AnswerTo(s, Some(expected)).rest;
    assert rest == AnswerRequest(request, Replies(Some(expected))).rest;
    Regroup(Counted(methods), PrintLogin(h), PrintRequest(h), rest);
  }

  /** And whatever is accepted is a printed handshake: the wire format is exactly this grammar. */
  lemma AcceptedIsPrinted(s: bytes, auth: Option<Login>) returns (h: Handshake)
    requires AnswerTo(s, auth).request.Some?
    ensures Printable(h) && Acceptable(h, auth)
    ensures s == Print(h, auth) + AnswerTo(s, auth).rest
    ensures AnswerTo(s, auth) == Answer(Replies(auth), Some((h.host, h.port)), AnswerTo(s, auth).rest)
  {
    match auth
    case None => h := AcceptedWithoutLogin(s);
    case Some(expected) => h := AcceptedWithLogin(s, expected);
  }

  // ----- The parser -----

  /** As many replies as the connection takes. */
  function Cut(replies: seq<Reply>, takes: nat): seq<Reply> {
    if |replies| <= takes then replies else replies[..takes]
  }

  lemma RepliesGrow(s: bytes, replies: seq<Reply>)
    ensures replies <= AnswerRequest(s, replies).replies
  {
  }

  lemma LoginRepliesGrow(s: bytes, expected: Login)
    ensures [Use(USER_PASS)] <= AnswerLogin(s, expected).replies
  {
    if TakeLogin(s).Some? {
      RepliesGrow(TakeLogin(s).value.1, [Use(USER_PASS), LoginOk]);
    }
  }

  class Client {
    const input: bytes
    /** How many replies the connection still takes. */
    const takes: nat
    var pos: nat
    var replies: seq<Reply>

    ghost predicate Valid()
      reads this
    {
      pos <= |input| && |replies| <= takes
    }

    ghost function Rest(): bytes
      reads this
      requires Valid()
    {
      input[pos..]
    }

    constructor (input: bytes, takes: nat)
      ensures Valid() && Rest() == input && replies == [] && this.takes == takes
    {
      this.input, this.takes := input, takes;
      pos, replies := 0, [];
    }

    /** A short read uses up what there is. */
    method ReadExact(n: nat) returns (r: Option<bytes>)
      requires Valid()
      modifies this`pos
      ensures Valid()
      ensures match Take(old(Rest()), n)
        case None => r.None? && Rest() == []
        case Some((data, rest)) => r == Some(data) && Rest() == rest
    {
      if n > |input| - pos {
        pos := |input|;
        return None;
      }
      assert Rest()[..n] == input[pos..pos + n] && Rest()[n..] == input[pos + n..];
      r := Some(input[pos..pos + n]);
      pos := pos + n;
    }

    method ReadCounted() returns (r: Option<bytes>)
      requires Valid()
      modifies this`pos
      ensures Valid()
      ensures match TakeCounted(old(Rest()))
        case None => r.None? && Rest() == []
        case Some((data, rest)) => r == Some(data) && Rest() == rest
    {
      var count := ReadExact(1);
      if count.None? {
        return None;
      }
      r := ReadExact(count.value[0]);
    }

    /** The client has got this answer, unless a reply did not get through. */
    ghost predicate Meets(a: Answer, r: Option<(Host, int)>)
      reads this
      requires Valid()
    {
      && r == (if |a.replies| <= takes then a.request else None)
      && (r.Some? ==> Rest() == a.rest)
      && replies == Cut(a.replies, takes)
    }

    method Write(reply: Reply) returns (ok: bool)
      requires Valid()
      modifies this`replies
      ensures Valid()
      ensures replies == Cut(old(replies) + [reply], takes)
      ensures ok <==> |old(replies)| < takes
    {
      ok := |replies| < takes;
      if ok {
        replies := replies + [reply];
      }
    }

    method ReadHost(kind: byte) returns (r: Option<Host>)
      requires Valid() && kind in {0x01, 0x03, 0x04}
      modifies this`pos
      ensures Valid()
      ensures match TakeHost([kind] + old(Rest()))
        case None => r.None? && Rest() == []
        case Some((host, rest)) => r == Some(host) && Rest() == rest
    {
      assert ([kind] + Rest())[1..] == Rest();
      var o;
      if kind == 0x01 {
        o := ReadExact(4);
        return if o.Some? then Some(Ip4(o.value)) else None;
      } else if kind == 0x04 {
        o := ReadExact(16);
        return if o.Some? then Some(Ip6(o.value)) else None;
      } else {
        o := ReadCounted();
        return if o.Some? then Some(Name(o.value)) else None;
      }
    }

    /** The `CONNECT` request. */
    method ReadRequest() returns (r: Option<(Host, int)>)
      requires Valid()
      modifies this`pos, this`replies
      ensures Valid() && Meets(AnswerRequest(old(Rest()), old(replies)), r)
    {
      ghost var s := Rest();
      var header := ReadExact(4);
      if header.None? || header.value[0] != 0x05 {
        return None;
      }
      if header.value[1] != 0x01 {
        var _ := Write(CommandUnsupported);
        return None;
      }
      if header.value[3] !in {0x01, 0x03, 0x04} {
        var _ := Write(AddressUnsupported);
        return None;
      }
      assert s[3..] == [header.value[3]] + Rest();
      var host := ReadHost(header.value[3]);
      if host.None? {
        return None;
      }
      var port := ReadExact(2);
      if port.None? {
        return None;
      }
      return Some((host.value, BigEndian(port.value[0], port.value[1])));
    }

    /** A reply that lets the client go on, and the request after it. */
    method ReplyAndReadRequest(reply: Reply) returns (r: Option<(Host, int)>)
      requires Valid()
      modifies this`pos, this`replies
      ensures Valid() && Meets(AnswerRequest(old(Rest()), old(replies) + [reply]), r)
    {
      RepliesGrow(Rest(), replies + [reply]);
      var written := Write(reply);
      if !written {
        return None;
      }
      r := ReadRequest();
    }

    method ReadLogin() returns (r: Option<Login>)
      requires Valid()
      modifies this`pos
      ensures Valid()
      ensures match TakeLogin(old(Rest()))
        case None => r.None? && Rest() == []
        case Some((login, rest)) => r == Some(login) && Rest() == rest
    {
      var version := ReadExact(1);
      if version.None? {
        return None;
      }
      var user := ReadCounted();
      if user.None? {
        return None;
      }
      var password := ReadCounted();
      if password.None? {
        return None;
      }
      return Some(Login(user.value, password.value));
    }

    /** The login and the request, once the client has been told to log in. */
    method ReadLoginAndRequest(expected: Login) returns (r: Option<(Host, int)>)
      requires Valid() && replies == [Use(USER_PASS)]
      modifies this`pos, this`replies
      ensures Valid() && Meets(AnswerLogin(old(Rest()), expected), r)
    {
      assert replies + [LoginOk] == [Use(USER_PASS), LoginOk];
      assert replies + [LoginFailed] == [Use(USER_PASS), LoginFailed];
      var login := ReadLogin();
      if login.None? {
        return None;
      }
      r := Judge(login.value == expected);
    }

    /** The login is answered; the request is read if it was good. */
    method Judge(good: bool) returns (r: Option<(Host, int)>)
      requires Valid()
      modifies this`pos, this`replies
      ensures Valid()
      ensures Meets(if good then AnswerRequest(old(Rest()), old(replies) + [LoginOk])
                    else Refuse(old(replies) + [LoginFailed], old(Rest())), r)
    {
      if !good {
        var _ := Write(LoginFailed);
        return None;
      }
      r := ReplyAndReadRequest(LoginOk);
    }

    /** `parse_socks5_request`: the answer, as far as the connection takes the replies. */
    method Parse(auth: Option<Login>) returns (r: Option<(Host, int)>)
      requires Valid() && replies == []
      modifies this`pos, this`replies
      ensures Valid() && Meets(AnswerTo(old(Rest()), auth), r)
    {
      var methods := ReadCounted();
      if methods.None? {
        return None;
      }
      if (if auth.Some? then USER_PASS else NO_AUTH) !in methods.value {
        var _ := Write(NoAcceptableMethod);
        return None;
      }
      r := Proceed(auth);
    }

    /** After a greeting that offers the method that is wanted. */
    method Proceed(auth: Option<Login>) returns (r: Option<(Host, int)>)
      requires Valid() && replies == []
      modifies this`pos, this`replies
      ensures Valid()
      ensures Meets(if auth.Some? then AnswerLogin(old(Rest()), auth.value)
                    else AnswerRequest(old(Rest()), [Use(NO_AUTH)]), r)
    {
      match auth
      case None => r := ReplyAndReadRequest(Use(NO_AUTH));
      case Some(expected) =>
        LoginRepliesGrow(Rest(), expected);
        var written := Write(Use(USER_PASS));
        if !written {
          return None;
        }
        r := ReadLoginAndRequest(expected);
    }
  }
}
