/** The RPC request frame: the caller puts a four-byte header size, the header and the
    argument bytes together; the provider splits a frame and looks the method up. */
module RpcFrame {
  import opened Bytes
  import opened Options
  import opened Wire
  import opened Messages

  // ---------- the four size bytes ----------

  /** A 32-bit number as its four bytes in memory, low byte first. */
  function Fixed32(v: uint32): (r: seq<byte>)
    ensures |r| == 4
  {
    [v % 256, v / 256 % 256, v / 65536 % 256, v / 16777216]
  }

  function ReadFixed32(b: seq<byte>): uint32
    requires |b| == 4
  {
    b[0] as int + 256 * (b[1] as int) + 65536 * (b[2] as int) + 16777216 * (b[3] as int)
  }

  lemma Fixed32RoundTrip(v: uint32)
    ensures ReadFixed32(Fixed32(v)) == v
  {
    var a := v / 256;
    var b := a / 256;
    assert v / 65536 == b && v / 16777216 == b / 256;
    assert v == 256 * a + v % 256 && a == 256 * b + a % 256 && b == 256 * (b / 256) + b % 256;
  }

  // ---------- building ----------

  function HeaderFor(service: seq<byte>, method_: seq<byte>, args: seq<byte>): RpcHeader {
    RpcHeader(service, method_, Low32(|args|), [])
  }

  /** Serializing anything longer than INT_MAX fails. */
  function BuildFrame(service: seq<byte>, method_: seq<byte>, args: seq<byte>): Option<seq<byte>> {
    var header := WriteHeader(HeaderFor(service, method_, args));
    if |args| > INT_MAX || |header| > INT_MAX then None
    else Some(Fixed32(Low32(|header|)) + header + args)
  }

  /** The header and the arguments both fit the signed 32-bit length that serializing allows. */
  predicate Framable(service: seq<byte>, method_: seq<byte>, args: seq<byte>) {
    |args| <= 2147483647 && HeaderSize(RpcHeader(service, method_, |args|, [])) <= 2147483647
  }

  /** A call is framed exactly when its parts are not too long. */
  lemma FramedIff(service: seq<byte>, method_: seq<byte>, args: seq<byte>)
    ensures BuildFrame(service, method_, args).Some? <==> Framable(service, method_, args)
  {
    HeaderSizeExact(HeaderFor(service, method_, args));
  }

  /** The frame: the header's length, lowest byte first, the header, the arguments. */
  lemma FrameLayout(service: seq<byte>, method_: seq<byte>, args: seq<byte>)
    requires Framable(service, method_, args)
    ensures BuildFrame(service, method_, args).Some?
    ensures var frame := BuildFrame(service, method_, args).value;
      var header := WriteHeader(RpcHeader(service, method_, |args|, []));
      && |frame| == 4 + |header| + |args|
      && frame[0] as int + 256 * frame[1] as int + 65536 * frame[2] as int + 16777216 * frame[3] as int == |header|
      && frame[4..4 + |header|] == header && frame[4 + |header|..] == args
  {
    FramedIff(service, method_, args);
    var header := WriteHeader(RpcHeader(service, method_, |args|, []));
    HeaderSizeExact(RpcHeader(service, method_, |args|, []));
    Fixed32RoundTrip(|header|);
    var frame := BuildFrame(service, method_, args).value;
    assert frame == Fixed32(|header|) + header + args;
    assert frame[..4] == Fixed32(|header|);
  }

  /** The frame CallMethod sends. */
  method CallMethod(service: seq<byte>, method_: seq<byte>, args: seq<byte>) returns (frame: Option<seq<byte>>)
    ensures frame == BuildFrame(service, method_, args)
    ensures frame.Some? <==> Framable(service, method_, args)
  {
    FramedIff(service, method_, args);
    if |args| > INT_MAX {
      return None;
    }
    var rpcHeader := new RpcHeaderMessage();
    rpcHeader.service := service;
    rpcHeader.method_ := method_;
    rpcHeader.args_size := Low32(|args|);
    var header := rpcHeader.InternalSerialize();
    if |header| > INT_MAX {
      return None;
    }
    var send := Fixed32(Low32(|header|));
    send := send + header;
    send := send + args;
    frame := Some(send);
  }

  // ---------- splitting ----------

  /** What becomes of a received frame: cut short of its own header, a header that does
      not parse, or a call. */
  datatype Split = OutOfRange | BadHeader | Call(service: seq<byte>, method_: seq<byte>, args: seq<byte>)

  /** std::string::substr: throws past the end, otherwise takes at most n bytes. */
  function Substr(s: seq<byte>, pos: nat, n: nat): Option<seq<byte>> {
    if pos > |s| then None
    else if pos + n <= |s| then Some(s[pos..pos + n])
    else Some(s[pos..])
  }

  /** The first four bytes as a number; missing ones stay zero. */
  function SizePrefix(s: seq<byte>): uint32 {
    if |s| >= 4 then ReadFixed32(s[..4]) else ReadFixed32((s + [0, 0, 0, 0])[..4])
  }

  function SplitFrame(f: FieldReader, recv: seq<byte>): Split {
    var size := SizePrefix(recv);
    var header := Substr(recv, 4, size);
    if header.None? then OutOfRange
    else
      var parsed := ParseHeader(f, NO_HEADER, header.value);
      if parsed.Malformed? then BadHeader
      else
        var args := Substr(recv, Low32(4 + size), parsed.msg.args_size);
        if args.None? then OutOfRange else Call(parsed.msg.service, parsed.msg.method_, args.value)
  }

  lemma FrameParts(header: seq<byte>, args: seq<byte>, extra: seq<byte>)
    requires |header| <= INT_MAX
    ensures var recv := Fixed32(|header|) + header + args + extra;
      && SizePrefix(recv) == |header|
      && Substr(recv, 4, |header|) == Some(header)
      && Substr(recv, 4 + |header|, |args|) == Some(args)
  {
    var recv := Fixed32(|header|) + header + args + extra;
    Fixed32RoundTrip(|header|);
    assert recv[..4] == Fixed32(|header|);
    assert recv[4..4 + |header|] == header;
    assert recv[4 + |header|..4 + |header| + |args|] == args;
  }

  lemma SplitByParts(f: FieldReader, recv: seq<byte>, header: seq<byte>, args: seq<byte>)
    requires SizePrefix(recv) == |header| <= INT_MAX
    requires Substr(recv, 4, |header|) == Some(header) && Substr(recv, 4 + |header|, |args|) == Some(args)
    ensures var p, split := ParseHeader(f, NO_HEADER, header), SplitFrame(f, recv);
      && (p.Malformed? <==> split == BadHeader)
      && (p.Parsed? && p.msg.args_size == |args| ==> split == Call(p.msg.service, p.msg.method_, args))
  {
    var p := ParseHeader(f, NO_HEADER, header);
    assert p == ParseHeader(f, NO_HEADER, Substr(recv, 4, SizePrefix(recv)).value);
  }

  /** Splitting a frame recovers exactly the service, method and argument bytes that
      were framed, even when more bytes follow, precisely when both names are short
      enough for the parser; a longer name is written but cannot be read back. */
  lemma SplitUndoesBuild(f: FieldReader, service: seq<byte>, method_: seq<byte>, args: seq<byte>, extra: seq<byte>)
    requires Framable(service, method_, args)
    ensures BuildFrame(service, method_, args).Some?
    ensures SplitFrame(f, BuildFrame(service, method_, args).value + extra)
         == if |service| <= MAX_SIZE && |method_| <= MAX_SIZE then Call(service, method_, args) else BadHeader
  {
    FramedIff(service, method_, args);
    var h := HeaderFor(service, method_, args);
    NamesInHeader(h);
    HeaderReadsBack(f, h);
    var header := WriteHeader(h);
    FrameParts(header, args, extra);
    SplitByParts(f, Fixed32(|header|) + header + args + extra, header, args);
  }

  lemma HeaderReadsBack(f: FieldReader, h: RpcHeader)
    requires h.unknown != [] ==> Rereads(f) && AllKept(f, HEADER_TAGS, h.unknown)
    requires |h.service| < TWO32 && |h.method_| < TWO32
    ensures ParseHeader(f, NO_HEADER, WriteHeader(h))
         == if |h.service| <= MAX_SIZE && |h.method_| <= MAX_SIZE then Parsed(h) else Malformed
  {
    HeaderParses(f, NO_HEADER, h, []);
    assert WriteHeader(h) + [] == WriteHeader(h);
    assert [] + h.unknown == h.unknown && MergeHeader(NO_HEADER, h) == h;
  }

  /** A newer peer may put fields into the header this program does not know: the call
      is recovered all the same. */
  lemma SplitSkipsUnknown(f: FieldReader, h: RpcHeader, args: seq<byte>, extra: seq<byte>)
    requires Rereads(f) && AllKept(f, HEADER_TAGS, h.unknown) && NamesShort(h)
    requires h.args_size == |args| && |WriteHeader(h)| <= INT_MAX
    ensures SplitFrame(f, Fixed32(|WriteHeader(h)|) + WriteHeader(h) + args + extra) == Call(h.service, h.method_, args)
  {
    var header := WriteHeader(h);
    HeaderReadsBack(f, h);
    FrameParts(header, args, extra);
    SplitByParts(f, Fixed32(|header|) + header + args + extra, header, args);
  }

  lemma NamesInHeader(h: RpcHeader)
    ensures |h.service| <= |WriteHeader(h)| && |h.method_| <= |WriteHeader(h)|
  {
  }

  // ---------- looking a method up ----------

  type Service = nat
  type Method = nat

  datatype ServiceInfo = ServiceInfo(service: Service, methods: map<seq<byte>, Method>)

  datatype MethodDescriptor = MethodDescriptor(name: seq<byte>, id: Method)

  datatype Answer =
    | Dropped(why: Split)
    | NoService
    | NoMethod
    | Invoke(service: Service, target: Method, args: seq<byte>)

  /** The method table of a service: a name already there is not replaced. */
  function TableFor(descs: seq<MethodDescriptor>): map<seq<byte>, Method> {
    if descs == [] then map[]
    else
      var last := descs[|descs| - 1];
      var t := TableFor(descs[..|descs| - 1]);
      if last.name in t then t else t[last.name := last.id]
  }

  ghost predicate FirstNamed(descs: seq<MethodDescriptor>, i: nat) {
    i < |descs| && forall k :: 0 <= k < i ==> descs[k].name != descs[i].name
  }

  predicate Listed(descs: seq<MethodDescriptor>, name: seq<byte>) {
    exists i :: 0 <= i < |descs| && descs[i].name == name
  }

  lemma ListedStep(descs: seq<MethodDescriptor>, name: seq<byte>)
    requires descs != []
    ensures var n := |descs| - 1;
      Listed(descs, name) <==> Listed(descs[..n], name) || descs[n].name == name
  {
    var n := |descs| - 1;
    if Listed(descs[..n], name) {
      var i :| 0 <= i < n && descs[..n][i].name == name;
      assert descs[i].name == name;
    }
    if i :| 0 <= i < n && descs[i].name == name {
      assert descs[..n][i].name == name;
    }
  }

  lemma {:induction false} TableNames(descs: seq<MethodDescriptor>, name: seq<byte>)
    ensures name in TableFor(descs) <==> Listed(descs, name)
    decreases |descs|
  {
    if descs != [] {
      var rest := descs[..|descs| - 1];
      TableNames(rest, name);
      TableNames(rest, descs[|descs| - 1].name);
      ListedStep(descs, name);
    }
  }

  lemma {:induction false} TableFirst(descs: seq<MethodDescriptor>, i: nat)
    requires FirstNamed(descs, i)
    ensures Listed(descs, descs[i].name)
    ensures descs[i].name in TableFor(descs) && TableFor(descs)[descs[i].name] == descs[i].id
    decreases |descs|
  {
    var n := |descs| - 1;
    var rest := descs[..n];
    if i < n {
      TableFirst(rest, i);
    } else {
      TableNames(rest, descs[n].name);
      assert descs[n].name !in TableFor(rest);
    }
  }

  /** The table holds exactly the names listed, each with the first descriptor so named. */
  lemma TableKeepsFirst(descs: seq<MethodDescriptor>)
    ensures forall name :: name in TableFor(descs) <==> Listed(descs, name)
    ensures forall i: nat :: FirstNamed(descs, i) ==>
              descs[i].name in TableFor(descs) && TableFor(descs)[descs[i].name] == descs[i].id
  {
    forall name
      ensures name in TableFor(descs) <==> Listed(descs, name)
    {
      TableNames(descs, name);
    }
    forall i: nat | FirstNamed(descs, i)
      ensures descs[i].name in TableFor(descs) && TableFor(descs)[descs[i].name] == descs[i].id
    {
      TableFirst(descs, i);
    }
  }

  function Dispatch(f: FieldReader, services: map<seq<byte>, ServiceInfo>, recv: seq<byte>): Answer {
    var split := SplitFrame(f, recv);
    if !split.Call? then Dropped(split)
    else if split.service !in services then NoService
    else if split.method_ !in services[split.service].methods then NoMethod
    else Invoke(services[split.service].service, services[split.service].methods[split.method_], split.args)
  }

  class RpcProvider {
    var serviceMap: map<seq<byte>, ServiceInfo>

    constructor ()
      ensures serviceMap == map[]
    {
      serviceMap := map[];
    }

    /** Publishes a service; one already there is not replaced. */
    method NotifyService(service: Service, name: seq<byte>, descs: seq<MethodDescriptor>)
      modifies this
      ensures serviceMap == if name in old(serviceMap) then old(serviceMap)
                            else old(serviceMap)[name := ServiceInfo(service, TableFor(descs))]
    {
      var methods: map<seq<byte>, Method> := map[];
      for i := 0 to |descs|
        invariant methods == TableFor(descs[..i])
      {
        assert descs[..i + 1][..i] == descs[..i];
        if descs[i].name !in methods {
          methods := methods[descs[i].name := descs[i].id];
        }
      }
      assert descs[..|descs|] == descs;
      if name !in serviceMap {
        serviceMap := serviceMap[name := ServiceInfo(service, methods)];
      }
    }

    /** OnMessage up to the call of the service. */
    method OnMessage(recv: seq<byte>, other: FieldReader) returns (answer: Answer)
      ensures answer == Dispatch(other, serviceMap, recv)
    {
      var size: nat := SizePrefix(recv);
      var header := Substr(recv, 4, size);
      if header.None? {
        return Dropped(OutOfRange);
      }
      var rpcHeader := new RpcHeaderMessage();
      var status := rpcHeader.InternalParse(header.value, other);
      if status != Success {
        return Dropped(BadHeader);
      }
      var args := Substr(recv, Low32(4 + size), rpcHeader.args_size);
      if args.None? {
        return Dropped(OutOfRange);
      }
      if rpcHeader.service !in serviceMap {
        return NoService;
      }
      var info := serviceMap[rpcHeader.service];
      if rpcHeader.method_ !in info.methods {
        return NoMethod;
      }
      answer := Invoke(info.service, info.methods[rpcHeader.method_], args.value);
    }
  }

  /** A framed call of a published method reaches that method with its own arguments. */
  lemma CallReachesMethod(f: FieldReader, services: map<seq<byte>, ServiceInfo>, service: seq<byte>,
                          descs: seq<MethodDescriptor>, i: nat, args: seq<byte>, extra: seq<byte>)
    requires service in services && services[service].methods == TableFor(descs) && FirstNamed(descs, i)
    requires |service| <= MAX_SIZE && |descs[i].name| <= MAX_SIZE
    requires Framable(service, descs[i].name, args)
    ensures BuildFrame(service, descs[i].name, args).Some?
    ensures Dispatch(f, services, BuildFrame(service, descs[i].name, args).value + extra)
         == Invoke(services[service].service, descs[i].id, args)
  {
    SplitUndoesBuild(f, service, descs[i].name, args, extra);
    TableKeepsFirst(descs);
  }

  /** One of a service nobody published, or of a method it does not list, is turned down. */
  lemma UnknownCallsTurnedDown(f: FieldReader, services: map<seq<byte>, ServiceInfo>, service: seq<byte>,
                               method_: seq<byte>, args: seq<byte>, extra: seq<byte>)
    requires |service| <= MAX_SIZE && |method_| <= MAX_SIZE && Framable(service, method_, args)
    ensures BuildFrame(service, method_, args).Some?
    ensures var answer := Dispatch(f, services, BuildFrame(service, method_, args).value + extra);
      && (service !in services ==> answer == NoService)
      && (service in services && method_ !in services[service].methods ==> answer == NoMethod)
  {
    SplitUndoesBuild(f, service, method_, args, extra);
  }

  /** A frame with a name too long to parse is dropped. */
  lemma LongNamesDropped(f: FieldReader, services: map<seq<byte>, ServiceInfo>, service: seq<byte>,
                         method_: seq<byte>, args: seq<byte>, extra: seq<byte>)
    requires (|service| > MAX_SIZE || |method_| > MAX_SIZE) && Framable(service, method_, args)
    ensures BuildFrame(service, method_, args).Some?
    ensures Dispatch(f, services, BuildFrame(service, method_, args).value + extra) == Dropped(BadHeader)
  {
    SplitUndoesBuild(f, service, method_, args, extra);
  }

  /** As much of the n bytes at pos as is there. */
  function UpTo(s: seq<byte>, pos: nat, n: nat): seq<byte>
    requires pos <= |s|
  {
    if pos + n <= |s| then s[pos..pos + n] else s[pos..]
  }

  lemma PrefixIs(recv: seq<byte>)
    requires |recv| >= 4
    ensures SizePrefix(recv)
         == recv[0] as int + 256 * recv[1] as int + 65536 * recv[2] as int + 16777216 * recv[3] as int
  {
    var b := recv[..4];
    assert b[0] == recv[0] && b[1] == recv[1] && b[2] == recv[2] && b[3] == recv[3];
  }

  lemma ShortFrames(f: FieldReader, recv: seq<byte>)
    requires |recv| < 4
    ensures SplitFrame(f, recv) == OutOfRange
  {
  }

  lemma SubstrIs(s: seq<byte>, pos: nat, n: nat)
    ensures Substr(s, pos, n) == if pos > |s| then None else Some(UpTo(s, pos, n))
  {
  }

  /** Any bytes at all, four at least: the header is as much as is there of what the first
      four announce, and the arguments as much as is there of what the header announces. */
  lemma SplitsAnything(f: FieldReader, recv: seq<byte>)
    requires |recv| >= 4
    ensures var size := recv[0] as int + 256 * recv[1] as int + 65536 * recv[2] as int + 16777216 * recv[3] as int;
      var at := Low32(4 + size);
      match ParseHeader(f, RpcHeader([], [], 0, []), UpTo(recv, 4, size))
      case Malformed => SplitFrame(f, recv) == BadHeader
      case Parsed(h) =>
        SplitFrame(f, recv)
        == if at > |recv| then OutOfRange else Call(h.service, h.method_, UpTo(recv, at, h.args_size))
  {
    PrefixIs(recv);
    SplitAt(f, recv, SizePrefix(recv));
  }

  lemma SplitAt(f: FieldReader, recv: seq<byte>, size: uint32)
    requires |recv| >= 4 && SizePrefix(recv) == size
    ensures var at := Low32(4 + size as nat);
      match ParseHeader(f, NO_HEADER, UpTo(recv, 4, size))
      case Malformed => SplitFrame(f, recv) == BadHeader
      case Parsed(h) =>
        SplitFrame(f, recv)
        == if at > |recv| then OutOfRange else Call(h.service, h.method_, UpTo(recv, at, h.args_size))
  {
    SubstrIs(recv, 4, size);
    var p := ParseHeader(f, NO_HEADER, UpTo(recv, 4, size));
    if p.Parsed? {
      SubstrIs(recv, Low32(4 + size as nat), p.msg.args_size);
    }
  }
}
