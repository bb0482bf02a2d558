/**
  Sockets, advertised addresses, substitutions and conditions used while a
  message is rewritten (msg_translator.c).  The length pass and the write pass
  pick the advertised address by different tests; both choices are modelled.
*/
module SubstContext {
  import opened Wrappers

  /** A C `str`: a null pointer (length 0) or a pointer to `text`. */
  datatype Str = Null | Str(text: string) {
    function Text(): string {
      if Null? then "" else text
    }
  }

  datatype Proto = ProtoNone | UDP | TCP | TLS | SCTP | WS | WSS | OtherProto

  datatype Ip = Ip(af: int, addr: string)

  datatype Socket = Socket(address: Ip, addressStr: string, portNo: nat, portStr: string,
                           proto: Proto, advName: string, advPort: string)

  /** Everything the passes read besides the buffer and the lumps. */
  datatype Context = Context(setAddress: Str, setPort: Str,
                             defaultAddress: Str, defaultPort: Str,
                             bind: Option<Socket>, dstIp: Ip, dstPort: nat, rcvProto: Proto,
                             send: Option<Socket>)

  const SIP_PORT: nat := 5060
  const TRANSPORT_PARAM: string := ";transport="

  datatype Subst = SubstNop | RcvIp | SndIp | RcvPort | SndPort
                 | RcvProto | SndProto | RcvAll | SndAll

  datatype Cond = CondFalse | CondTrue | IfSameRealms | IfDiffRealms
                | IfDiffAf | IfDiffProto | IfDiffPort | IfDiffIp

  /** Where an address or port string is taken from. */
  datatype Source = Advertised | PerMessage | Default | Own

  // ----- choice of the strings -----

  /** The length pass tests the pointer of the per-message string. */
  function SendSourceForLength(adv: string, perMessage: Str, default: Str): Source {
    if adv != "" then Advertised
    else if perMessage.Str? then PerMessage
    else if default.Str? then Default
    else Own
  }

  /** The write pass tests its length. */
  function SendSourceForWrite(adv: string, perMessage: Str, default: Str): Source {
    if adv != "" then Advertised
    else if perMessage.Text() != "" then PerMessage
    else if default.Str? then Default
    else Own
  }

  /** Both passes choose the receiving side alike. */
  function ReceiveSource(adv: string, default: Str): Source {
    if adv != "" then Advertised else if default.Str? then Default else Own
  }

  function Pick(src: Source, adv: string, perMessage: Str, default: Str, own: string): string {
    match src
    case Advertised => adv
    case PerMessage => perMessage.Text()
    case Default => default.Text()
    case Own => own
  }

  // ----- substitutions -----

  function ProtoName(p: Proto): string {
    match p
    case ProtoNone => "udp"
    case UDP => "udp"
    case TCP => "tcp"
    case TLS => "tls"
    case SCTP => "sctp"
    case WS => "ws"
    case WSS => "wss"
    case OtherProto => ""
  }

  function TransportText(p: Proto): string {
    if p == ProtoNone || p == UDP || p == OtherProto then "" else TRANSPORT_PARAM + ProtoName(p)
  }

  function ProtoLen(p: Proto): nat {
    match p
    case ProtoNone => 3
    case UDP => 3
    case TCP => 3
    case TLS => 3
    case WSS => 3
    case SCTP => 4
    case WS => 2
    case OtherProto => 0
  }

  function TransportLen(p: Proto): nat {
    match p
    case ProtoNone => 0
    case UDP => 0
    case TCP => |TRANSPORT_PARAM| + 3
    case TLS => |TRANSPORT_PARAM| + 3
    case WSS => |TRANSPORT_PARAM| + 3
    case SCTP => |TRANSPORT_PARAM| + 4
    case WS => |TRANSPORT_PARAM| + 2
    case OtherProto => 0
  }

  /** address[:port][;transport=proto]; the port is shown when it is not the
      default one or does not come from the socket itself. */
  function RealmText(addr: string, portSrc: Source, port: string, s: Socket): string {
    addr
    + (if s.portNo != SIP_PORT || portSrc != Own then ":" + port else "")
    + TransportText(s.proto)
  }

  function RealmLen(addr: string, portSrc: Source, port: string, s: Socket): nat {
    |addr|
    + (if s.portNo != SIP_PORT || portSrc != Own then 1 + |port| else 0)
    + TransportLen(s.proto)
  }

  function ReceiveAddress(c: Context, s: Socket): string {
    Pick(ReceiveSource(s.advName, c.defaultAddress), s.advName, Null, c.defaultAddress, s.addressStr)
  }

  function ReceivePort(c: Context, s: Socket): string {
    Pick(ReceiveSource(s.advPort, c.defaultPort), s.advPort, Null, c.defaultPort, s.portStr)
  }

  function WritePassAddress(c: Context, s: Socket): string {
    Pick(SendSourceForWrite(s.advName, c.setAddress, c.defaultAddress),
         s.advName, c.setAddress, c.defaultAddress, s.addressStr)
  }

  function WritePassPort(c: Context, s: Socket): string {
    Pick(SendSourceForWrite(s.advPort, c.setPort, c.defaultPort),
         s.advPort, c.setPort, c.defaultPort, s.portStr)
  }

  function LengthPassAddress(c: Context, s: Socket): string {
    Pick(SendSourceForLength(s.advName, c.setAddress, c.defaultAddress),
         s.advName, c.setAddress, c.defaultAddress, s.addressStr)
  }

  function LengthPassPort(c: Context, s: Socket): string {
    Pick(SendSourceForLength(s.advPort, c.setPort, c.defaultPort),
         s.advPort, c.setPort, c.defaultPort, s.portStr)
  }

  /** SUBST_LUMP: what the write pass emits for a substitution lump. */
  function SubstText(k: Subst, c: Context): string {
    if k in {RcvIp, RcvPort, RcvProto, RcvAll} then
      if c.bind.None? then "" else
      var s := c.bind.value;
      match k
      case RcvIp => ReceiveAddress(c, s)
      case RcvPort => ReceivePort(c, s)
      case RcvProto => ProtoName(s.proto)
      case _ => RealmText(ReceiveAddress(c, s), ReceiveSource(s.advPort, c.defaultPort), ReceivePort(c, s), s)
    else if k == SubstNop || c.send.None? then ""
    else
      var s := c.send.value;
      match k
      case SndIp => WritePassAddress(c, s)
      case SndPort => WritePassPort(c, s)
      case SndProto => ProtoName(s.proto)
      case _ => RealmText(WritePassAddress(c, s), SendSourceForWrite(s.advPort, c.setPort, c.defaultPort),
                          WritePassPort(c, s), s)
  }

  /** SUBST_LUMP_LEN: what the length pass counts for the same lump. */
  function SubstLen(k: Subst, c: Context): nat {
    if k in {RcvIp, RcvPort, RcvProto, RcvAll} then
      if c.bind.None? then 0 else
      var s := c.bind.value;
      match k
      case RcvIp => |ReceiveAddress(c, s)|
      case RcvPort => |ReceivePort(c, s)|
      case RcvProto => ProtoLen(s.proto)
      case _ => RealmLen(ReceiveAddress(c, s), ReceiveSource(s.advPort, c.defaultPort), ReceivePort(c, s), s)
    else if k == SubstNop || c.send.None? then 0
    else
      var s := c.send.value;
      match k
      case SndIp => |LengthPassAddress(c, s)|
      case SndPort => |LengthPassPort(c, s)|
      case SndProto => ProtoLen(s.proto)
      case _ => RealmLen(LengthPassAddress(c, s), SendSourceForLength(s.advPort, c.setPort, c.defaultPort),
                         LengthPassPort(c, s), s)
  }

  // ----- when the two choices agree -----

  /** The per-message address is not the empty, non-null string, or that does
      not matter: the socket advertises a name, or the fallback is empty too. */
  predicate AddressConsistent(c: Context) {
    || c.send.None?
    || c.send.value.advName != ""
    || c.setAddress != Str("")
    || (if c.defaultAddress.Str? then c.defaultAddress.text else c.send.value.addressStr) == ""
  }

  predicate PortConsistent(c: Context) {
    || c.send.None?
    || c.send.value.advPort != ""
    || c.setPort != Str("")
    || (if c.defaultPort.Str? then c.defaultPort.text == ""
        else c.send.value.portStr == "" && c.send.value.portNo != SIP_PORT)
  }

  predicate Consistent(c: Context) {
    AddressConsistent(c) && PortConsistent(c)
  }

  lemma TransportLenMatches(p: Proto)
    ensures ProtoLen(p) == |ProtoName(p)| && TransportLen(p) == |TransportText(p)|
  {
  }

  /** Exactly when every substitution is counted as long as it is written. */
  lemma SubstPassesAgree(c: Context)
    ensures Consistent(c) <==> forall k :: SubstLen(k, c) == |SubstText(k, c)|
  {
    if Consistent(c) {
      forall k ensures SubstLen(k, c) == |SubstText(k, c)| {
        SubstAgrees(k, c);
      }
    } else {
      var k := InconsistentWitness(c);
    }
  }

  lemma SubstAgrees(k: Subst, c: Context)
    requires Consistent(c)
    ensures SubstLen(k, c) == |SubstText(k, c)|
  {
    if c.bind.Some? { TransportLenMatches(c.bind.value.proto); }
    if c.send.Some? { TransportLenMatches(c.send.value.proto); }
  }

  /** A substitution the two passes disagree on. */
  lemma InconsistentWitness(c: Context) returns (k: Subst)
    requires !Consistent(c)
    ensures SubstLen(k, c) != |SubstText(k, c)|
  {
    TransportLenMatches(c.send.value.proto);
    if !AddressConsistent(c) {
      k := SndIp;
    } else if SubstLen(SndPort, c) != |SubstText(SndPort, c)| {
      k := SndPort;
    } else {
      k := SndAll;
    }
  }

  // ----- conditions (lump_check_opt) -----

  /** The outcome of an optional lump's condition; with no sending socket the
      comparing conditions are presumed to hold. */
  predicate CheckOpt(cond: Cond, c: Context) {
    if cond == CondFalse then false
    else if cond == CondTrue then true
    else if c.send.None? then true
    else
      var snd := c.send.value;
      var ip := if c.bind.Some? then c.bind.value.address else c.dstIp;
      var port := if c.bind.Some? then c.bind.value.portNo else c.dstPort;
      var proto := if c.bind.Some? then c.bind.value.proto else c.rcvProto;
      match cond
      case IfDiffRealms => !(port == snd.portNo && proto == snd.proto && ip == snd.address)
      case IfSameRealms => port == snd.portNo && proto == snd.proto && ip == snd.address
      case IfDiffAf => ip.af != snd.address.af
      case IfDiffProto => proto != snd.proto
      case IfDiffPort => port != snd.portNo
      case IfDiffIp => ip != snd.address
      case _ => false
  }

  /** What a message came in on: its socket or, without one, its destination. */
  function Arrival(c: Context): (Ip, nat, Proto) {
    if c.bind.Some? then (c.bind.value.address, c.bind.value.portNo, c.bind.value.proto)
    else (c.dstIp, c.dstPort, c.rcvProto)
  }

  /** Which conditions hold for a message that leaves the way it came. */
  lemma SameRealm(c: Context)
    requires c.send.Some?
    requires Arrival(c) == (c.send.value.address, c.send.value.portNo, c.send.value.proto)
    ensures forall k :: CheckOpt(k, c) <==> k in {CondTrue, IfSameRealms}
  {
  }

  /** And for one that leaves by another address, port or protocol only. */
  lemma OneChange(c: Context)
    requires c.send.Some?
    ensures var (ip, port, proto) := Arrival(c);
      var s := c.send.value;
      && (ip.af == s.address.af && ip != s.address && port == s.portNo && proto == s.proto ==>
            forall k :: CheckOpt(k, c) <==> k in {CondTrue, IfDiffRealms, IfDiffIp})
      && (ip.af != s.address.af && port == s.portNo && proto == s.proto ==>
            forall k :: CheckOpt(k, c) <==> k in {CondTrue, IfDiffRealms, IfDiffIp, IfDiffAf})
      && (ip == s.address && port != s.portNo && proto == s.proto ==>
            forall k :: CheckOpt(k, c) <==> k in {CondTrue, IfDiffRealms, IfDiffPort})
      && (ip == s.address && port == s.portNo && proto != s.proto ==>
            forall k :: CheckOpt(k, c) <==> k in {CondTrue, IfDiffRealms, IfDiffProto})
  {
  }

  /** The realms differ if and only if one of their parts does. */
  lemma RealmsDiffer(c: Context)
    requires c.send.Some?
    ensures CheckOpt(IfDiffRealms, c) <==>
            CheckOpt(IfDiffIp, c) || CheckOpt(IfDiffPort, c) || CheckOpt(IfDiffProto, c)
    ensures CheckOpt(IfSameRealms, c) <==> !CheckOpt(IfDiffRealms, c)
    ensures CheckOpt(IfDiffAf, c) ==> CheckOpt(IfDiffIp, c)
    ensures CheckOpt(IfDiffRealms, c) <==>
            Arrival(c) != (c.send.value.address, c.send.value.portNo, c.send.value.proto)
  {
  }

  // ----- how the substitutions fit together -----

  /** A port is left out only if it is the socket's own and the default one. */
  predicate PortShown(s: Socket, perMessage: Str, default: Str) {
    s.portNo != SIP_PORT || s.advPort != "" || perMessage.Text() != "" || default.Str?
  }

  function RealmOf(addr: string, shown: bool, port: string, s: Socket, proto: string): string {
    addr + (if shown then ":" + port else "")
    + (if s.proto in {TCP, TLS, SCTP, WS, WSS} then ";transport=" + proto else "")
  }

  /** How protocols are written. */
  lemma ProtocolNames(c: Context)
    requires c.send.Some?
    ensures var name := SubstText(SndProto, c);
      match c.send.value.proto
      case TCP => name == "tcp"
      case TLS => name == "tls"
      case SCTP => name == "sctp"
      case WS => name == "ws"
      case WSS => name == "wss"
      case OtherProto => name == ""
      case _ => name == "udp"
    ensures c.bind.Some? && c.bind.value.proto == c.send.value.proto ==>
              SubstText(RcvProto, c) == SubstText(SndProto, c)
  {
  }

  /** The realm is its address, its port and its transport, each as on its own. */
  lemma SentRealm(c: Context)
    requires c.send.Some?
    ensures var s := c.send.value;
      SubstText(SndAll, c) == RealmOf(SubstText(SndIp, c), PortShown(s, c.setPort, c.defaultPort),
                                      SubstText(SndPort, c), s, SubstText(SndProto, c))
  {
  }

  lemma ReceivedRealm(c: Context)
    requires c.bind.Some?
    ensures var s := c.bind.value;
      SubstText(RcvAll, c) == RealmOf(SubstText(RcvIp, c), PortShown(s, Null, c.defaultPort),
                                      SubstText(RcvPort, c), s, SubstText(RcvProto, c))
  {
  }

  /** Without any advertised string both sides show their socket's own, and the
      two sides are alike on one socket. */
  lemma OwnStrings(c: Context)
    requires c.defaultAddress.Null? && c.defaultPort.Null? && c.setAddress.Null? && c.setPort.Null?
    ensures c.send.Some? && c.send.value.advName == "" == c.send.value.advPort ==>
              SubstText(SndIp, c) == c.send.value.addressStr && SubstText(SndPort, c) == c.send.value.portStr
    ensures c.bind.Some? && c.bind.value.advName == "" == c.bind.value.advPort ==>
              SubstText(RcvIp, c) == c.bind.value.addressStr && SubstText(RcvPort, c) == c.bind.value.portStr
    ensures c.bind == c.send ==> SubstText(SndAll, c) == SubstText(RcvAll, c)
  {
  }

  /** What is set closer to the message wins: the socket's advertised name, then the
      one set for the message (sending side only), then the default. */
  lemma Precedence(c: Context)
    ensures c.send.Some? && c.send.value.advName != "" ==> SubstText(SndIp, c) == c.send.value.advName
    ensures c.send.Some? && c.send.value.advPort != "" ==> SubstText(SndPort, c) == c.send.value.advPort
    ensures c.send.Some? && c.send.value.advName == "" && c.setAddress.Text() != "" ==>
              SubstText(SndIp, c) == c.setAddress.Text()
    ensures c.send.Some? && c.send.value.advPort == "" && c.setPort.Text() != "" ==>
              SubstText(SndPort, c) == c.setPort.Text()
    ensures c.send.Some? && c.send.value.advName == "" == c.setAddress.Text() && c.defaultAddress.Str? ==>
              SubstText(SndIp, c) == c.defaultAddress.text
    ensures c.send.Some? && c.send.value.advPort == "" == c.setPort.Text() && c.defaultPort.Str? ==>
              SubstText(SndPort, c) == c.defaultPort.text
    ensures c.bind.Some? && c.bind.value.advName != "" ==> SubstText(RcvIp, c) == c.bind.value.advName
    ensures c.bind.Some? && c.bind.value.advPort != "" ==> SubstText(RcvPort, c) == c.bind.value.advPort
    ensures c.bind.Some? && c.bind.value.advName == "" && c.defaultAddress.Str? ==>
              SubstText(RcvIp, c) == c.defaultAddress.text
    ensures c.bind.Some? && c.bind.value.advPort == "" && c.defaultPort.Str? ==>
              SubstText(RcvPort, c) == c.defaultPort.text
  {
  }
}
