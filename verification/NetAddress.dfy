/** Network addresses written with an encoding and a transport: `encoding@transport://address`. */
module NetAddress {
  import opened Common

  datatype Transport = Quic | WebSocket | SecureWebSocket | HttpServer | GrpcServer

  datatype Encoding = Bincode | MsgPack | Json

  /** A socket address, as a number. */
  type Socket = nat

  datatype Address = Net(socket: Socket) | NetUrl(url: string) | File(path: string)

  datatype CompositeAddress = Composite(encoding: Option<Encoding>, transport: Option<Transport>, address: Address)

  /** What the platform makes of texts: the socket one resolves to, whether it is a URL, and how a
      socket prints. */
  datatype Platform = Platform(resolve: string -> Option<Socket>, isUrl: string -> bool, show: Socket -> string)
  {
    /** Every text is an address: a file, if it is nothing else. */
    function ReadAddress(s: string): Address {
      if resolve(s).Some? then Net(resolve(s).value) else if isUrl(s) then NetUrl(s) else File(s)
    }

    function PrintAddress(a: Address): string {
      match a
      case Net(socket) => show(socket)
      case NetUrl(url) => url
      case File(path) => path
    }
  }

  function LowerChar(c: char): char {
    if 'A' <= c <= 'Z' then c - 'A' + 'a' else c
  }

  /** Lower case, of ASCII letters. */
  function Lower(s: string): string {
    seq(|s|, i requires 0 <= i < |s| => LowerChar(s[i]))
  }

  function TransportName(t: Transport): string {
    match t
    case Quic => "quic"
    case WebSocket => "ws"
    case SecureWebSocket => "wss"
    case HttpServer => "http_server"
    case GrpcServer => "grpc_server"
  }

  function ReadTransport(s: string): Option<Transport> {
    var l := Lower(s);
    if l == "quic" then Some(Quic)
    else if l in ["websocket", "web_socket", "web-socket", "ws"] then Some(WebSocket)
    else if l == "wss" then Some(SecureWebSocket)
    else if l in ["http", "http_server"] then Some(HttpServer)
    else if l in ["grpc", "grpc_server"] then Some(GrpcServer)
    else None
  }

  /** The names a transport goes by, in lower case. */
  function TransportNames(t: Transport): set<string> {
    match t
    case Quic => {"quic"}
    case WebSocket => {"ws", "websocket", "web_socket", "web-socket"}
    case SecureWebSocket => {"wss"}
    case HttpServer => {"http", "http_server"}
    case GrpcServer => {"grpc", "grpc_server"}
  }

  /** A text is read as a transport if and only if it is one of its names, in upper or lower case. */
  lemma ReadTransportIff(s: string, t: Transport)
    ensures ReadTransport(s) == Some(t) <==> Lower(s) in TransportNames(t)
  {
    NamesDiffer(Lower(s));
  }

  /** The names differ in length or in their first letters. */
  lemma NamesDiffer(l: string)
    ensures l == "quic" || l == "json" ==> |l| == 4
    ensures l == "ws" ==> |l| == 2
    ensures l == "wss" ==> |l| == 3 && l[0] == 'w'
    ensures l == "bin" || l == "rmp" ==> |l| == 3 && l[0] != 'w'
    ensures l == "http" || l == "grpc" ==> |l| == 4
    ensures "quic"[0] == 'q' && "http"[0] == 'h' && "grpc"[0] == 'g' && "json"[0] == 'j'
    ensures l == "websocket" ==> |l| == 9
    ensures l == "web_socket" || l == "web-socket" ==> |l| == 10
    ensures l == "http_server" || l == "grpc_server" || l == "messagepack" ==> |l| == 11
    ensures "http_server"[0] == 'h' && "grpc_server"[0] == 'g'
    ensures "bincode"[0] == 'b' && "msgpack"[0] == 'm' && "messagepack"[0] == 'm' && "bin"[0] == 'b' && "rmp"[0] == 'r'
  {
  }

  function EncodingNames(e: Encoding): set<string> {
    match e
    case Bincode => {"bincode", "bin"}
    case MsgPack => {"msgpack", "messagepack", "rmp"}
    case Json => {"json"}
  }

  lemma ReadEncodingIff(s: string, e: Encoding)
    ensures ReadEncoding(s) == Some(e) <==> Lower(s) in EncodingNames(e)
  {
    NamesDiffer(Lower(s));
  }

  /** The case of ASCII letters does not matter. */
  lemma CaseIsIgnored(s: string, t: string)
    requires |s| == |t|
    requires forall i :: 0 <= i < |s| ==> s[i] == t[i] || ('A' <= s[i] <= 'Z' && t[i] == s[i] - 'A' + 'a')
    ensures ReadTransport(s) == ReadTransport(t) && ReadEncoding(s) == ReadEncoding(t)
  {
    forall i | 0 <= i < |s|
      ensures LowerChar(s[i]) == LowerChar(t[i])
    {
    }
    assert Lower(s) == Lower(t);
  }

  function EncodingName(e: Encoding): string {
    match e
    case Bincode => "bincode"
    case MsgPack => "msgpack"
    case Json => "json"
  }

  function ReadEncoding(s: string): Option<Encoding> {
    var l := Lower(s);
    if l in ["bincode", "bin"] then Some(Bincode)
    else if l in ["msgpack", "messagepack", "rmp"] then Some(MsgPack)
    else if l == "json" then Some(Json)
    else None
  }

  // ----- splitting at a text -----

  predicate At(s: string, p: string, i: int) {
    0 <= i <= |s| - |p| && s[i..i + |p|] == p
  }

  lemma AtShift(a: string, s: string, p: string, i: int)
    requires i >= 0
    ensures At(a + s, p, |a| + i) <==> At(s, p, i)
  {
    if i <= |s| - |p| {
      assert (a + s)[|a| + i..|a| + i + |p|] == s[i..i + |p|];
    }
  }

  lemma AtStart(s: string, p: string, i: int)
    requires p != "" && 0 <= i < |s| && s[i] != p[0]
    ensures !At(s, p, i)
  {
    if i <= |s| - |p| {
      assert s[i..i + |p|][0] == s[i];
    }
  }

  function First(s: string, p: string): (r: Option<nat>)
    requires p != ""
    ensures r.Some? ==> At(s, p, r.value) && forall j :: 0 <= j < r.value ==> !At(s, p, j)
    ensures r.None? ==> forall j :: !At(s, p, j)
    decreases |s|
  {
    if |s| < |p| then None
    else if At(s, p, 0) then Some(0)
    else
      var r := First(s[1..], p);
      assert forall j :: j > 0 ==> (At(s, p, j) <==> At(s[1..], p, j - 1)) by {
        assert s == s[..1] + s[1..];
        forall j | j > 0 ensures At(s, p, j) <==> At(s[1..], p, j - 1) { AtShift(s[..1], s[1..], p, j - 1); }
      }
      if r.Some? then Some(r.value + 1) else None
  }

  predicate Has(s: string, p: string)
    requires p != ""
  {
    First(s, p).Some?
  }

  /** The first and the second piece of a split. */
  function Head(s: string, p: string): string
    requires p != ""
  {
    var i := First(s, p);
    if i.None? then s else s[..i.value]
  }

  function Second(s: string, p: string): string
    requires p != "" && Has(s, p)
  {
    Head(s[First(s, p).value + |p|..], p)
  }

  lemma SplitAfter(a: string, p: string, s: string)
    requires p != "" && p[0] !in a
    ensures Has(a + p + s, p) && Head(a + p + s, p) == a && Second(a + p + s, p) == Head(s, p)
  {
    var t := a + p + s;
    assert t[|a|..|a| + |p|] == p && At(t, p, |a|);
    forall j | 0 <= j < |a|
      ensures !At(t, p, j)
    {
      assert a[j] in a;
      AtStart(t, p, j);
    }
    assert First(t, p).value == |a|;
    assert t[|a| + |p|..] == s;
  }

  lemma HasAfter(a: string, p: string, s: string)
    requires p != "" && p[0] !in a
    ensures Has(a + s, p) <==> Has(s, p)
  {
    var t := a + s;
    forall j | 0 <= j < |a|
      ensures !At(t, p, j)
    {
      assert a[j] in a;
      AtStart(t, p, j);
    }
    if Has(s, p) {
      AtShift(a, s, p, First(s, p).value);
    } else if Has(t, p) {
      AtShift(a, s, p, First(t, p).value - |a|);
    }
  }

  lemma WholeHead(s: string, p: string)
    requires p != ""
    ensures Head(s, p) == s <==> !Has(s, p)
  {
  }

  // ----- printing and reading -----

  function Print(c: CompositeAddress, p: Platform): string {
    var address := p.PrintAddress(c.address);
    var out := if c.transport.Some? then TransportName(c.transport.value) + "://" + address else address;
    if c.encoding.Some? then EncodingName(c.encoding.value) + "@" + out else out
  }

  /** None for a text that is not read. */
  function Read(s: string, p: Platform): Option<CompositeAddress> {
    if Has(s, "://") then
      var head, address := Head(s, "://"), p.ReadAddress(Second(s, "://"));
      if Has(head, "@") then
        var e, t := ReadEncoding(Head(head, "@")), ReadTransport(Second(head, "@"));
        if e.Some? && t.Some? then Some(Composite(e, t, address)) else None
      else
        var t := ReadTransport(head);
        if t.Some? then Some(Composite(None, t, address)) else None
    else if Has(s, "@") then
      var e := ReadEncoding(Head(s, "@"));
      if e.Some? then Some(Composite(e, None, p.ReadAddress(Second(s, "@")))) else None
    else Some(Composite(None, None, p.ReadAddress(s)))
  }

  predicate Reads(s: string, p: Platform, c: CompositeAddress) {
    Read(s, p) == Some(c)
  }

  lemma TransportReadBack(t: Transport)
    ensures ReadTransport(TransportName(t)) == Some(t) && ':' !in TransportName(t) && '@' !in TransportName(t)
  {
    var s := TransportName(t);
    assert Lower(s) == s;
  }

  lemma EncodingReadBack(e: Encoding)
    ensures ReadEncoding(EncodingName(e)) == Some(e) && ':' !in EncodingName(e) && '@' !in EncodingName(e)
  {
    var s := EncodingName(e);
    assert Lower(s) == s;
  }

  lemma {:induction false} WithBoth(e: Encoding, t: Transport, text: string, p: Platform, a: Address)
    ensures Reads(EncodingName(e) + "@" + (TransportName(t) + "://" + text), p, Composite(Some(e), Some(t), a))
       <==> p.ReadAddress(Head(text, "://")) == a
  {
    hide First, ReadTransport, ReadEncoding, TransportName, EncodingName;
    var en, tn := EncodingName(e), TransportName(t);
    EncodingReadBack(e);
    TransportReadBack(t);
    var head := en + "@" + tn;
    assert en + "@" + (tn + "://" + text) == head + "://" + text;
    assert ':' !in head;
    SplitAfter(head, "://", text);
    SplitAfter(en, "@", tn);
    NoAt(tn);
  }

  lemma NoAt(s: string)
    requires '@' !in s
    ensures !Has(s, "@") && Head(s, "@") == s
  {
    forall j | 0 <= j < |s|
      ensures !At(s, "@", j)
    {
      AtStart(s, "@", j);
    }
  }

  lemma {:induction false} WithTransport(t: Transport, text: string, p: Platform, a: Address)
    ensures Reads(TransportName(t) + "://" + text, p, Composite(None, Some(t), a))
       <==> p.ReadAddress(Head(text, "://")) == a
  {
    hide First, ReadTransport, ReadEncoding, TransportName;
    TransportReadBack(t);
    SplitAfter(TransportName(t), "://", text);
    NoAt(TransportName(t));
  }

  lemma {:induction false} WithEncoding(e: Encoding, text: string, p: Platform, a: Address)
    ensures Reads(EncodingName(e) + "@" + text, p, Composite(Some(e), None, a))
       <==> !Has(text, "://") && p.ReadAddress(Head(text, "@")) == a
  {
    hide First, ReadTransport, ReadEncoding, EncodingName;
    EncodingReadBack(e);
    var en := EncodingName(e);
    assert ':' !in en + "@";
    HasAfter(en + "@", "://", text);
    SplitAfter(en, "@", text);
  }

  lemma Bare(text: string, p: Platform, a: Address)
    ensures Reads(text, p, Composite(None, None, a))
       <==> !Has(text, "://") && !Has(text, "@") && p.ReadAddress(text) == a
  {
    hide First, ReadTransport, ReadEncoding;
  }

  /** The printed address as far as it is read again. */
  function Remainder(c: CompositeAddress, text: string): string {
    if c.transport.Some? then Head(text, "://") else if c.encoding.Some? then Head(text, "@") else text
  }

  /** A printed address is read back if and only if what remains of its inner text reads as the inner
      address and no separator in that text is taken for one further out. */
  lemma CompositeReadBackIff(c: CompositeAddress, p: Platform)
    ensures var text := p.PrintAddress(c.address);
            Reads(Print(c, p), p, c)
            <==> && p.ReadAddress(Remainder(c, text)) == c.address
                 && (c.transport.None? ==> !Has(text, "://"))
                 && (c.transport.None? && c.encoding.None? ==> !Has(text, "@"))
  {
    hide First, Read, Platform.ReadAddress, Platform.PrintAddress;
    var text := p.PrintAddress(c.address);
    if c.encoding.Some? {
      if c.transport.Some? {
        WithBoth(c.encoding.value, c.transport.value, text, p, c.address);
      } else {
        WithEncoding(c.encoding.value, text, p, c.address);
      }
    } else if c.transport.Some? {
      WithTransport(c.transport.value, text, p, c.address);
    } else {
      Bare(text, p, c.address);
    }
  }

  /** For files and URLs, and for sockets printed without separators: if and only if the inner text
      reads as the inner address and holds no `://`, and no `@` either unless a transport is given. */
  lemma PlainReadBackIff(c: CompositeAddress, p: Platform)
    requires var text := p.PrintAddress(c.address); c.address.Net? ==> !Has(text, "://") && !Has(text, "@")
    ensures var text := p.PrintAddress(c.address);
            Reads(Print(c, p), p, c)
            <==> && p.ReadAddress(text) == c.address
                 && !Has(text, "://") && (c.transport.None? ==> !Has(text, "@"))
  {
    var text := p.PrintAddress(c.address);
    CompositeReadBackIff(c, p);
    WholeHead(text, "://");
    WholeHead(text, "@");
    hide First, Reads, Print;
  }
}
