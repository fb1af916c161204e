/** The generated messages: what they serialize to, the tag-driven parsers that merge
    what they read into a message, sizes and merging. Merging follows the Protocol
    Buffers Encoding specification, section "Last One Wins". Fields a message does not
    know go through a reader of the library's and are kept with the message. */
module Messages {
  import opened Bytes
  import opened Options
  import opened Wire

  // ---------- fixbug.ResultCode ----------

  datatype ResultCode = ResultCode(errcode: int32, errmsg: seq<byte>, unknown: seq<seq<byte>>)

  const NO_RESULT := ResultCode(0, [], [])
  const RESULT_TAGS: set<nat> := {8, 18}

  function WriteErrcode(v: int32): seq<byte> {
    if v != 0 then [8] + WriteInt32(v) else []
  }

  /** A byte string in the field of the given tag, left out when empty. */
  function WriteString(tag: byte, b: seq<byte>): seq<byte> {
    if b != [] then [tag] + WriteBytes(b) else []
  }

  function WriteResult(m: ResultCode): seq<byte> {
    WriteErrcode(m.errcode) + (WriteString(18, m.errmsg) + WriteUnknown(m.unknown))
  }

  function ResultSize(m: ResultCode): nat {
    (if m.errmsg != [] then 1 + BytesSize(|m.errmsg|) else 0)
    + (if m.errcode != 0 then 1 + Int32Size(m.errcode) else 0)
    + UnknownSize(m.unknown)
  }

  /** Fields present in b replace those of a; unknown ones are appended. */
  function MergeResult(a: ResultCode, b: ResultCode): ResultCode {
    ResultCode(if b.errcode != 0 then b.errcode else a.errcode,
               if b.errmsg != [] then b.errmsg else a.errmsg,
               a.unknown + b.unknown)
  }

  /** Merges the message in s into m. A zero tag or an end-group tag stops the parser
      short of the end, which its callers count as malformed. */
  function ParseResult(f: FieldReader, m: ResultCode, s: seq<byte>): Outcome<ResultCode>
    decreases |s|
  {
    if s == [] then Parsed(m)
    else
      var t := ReadTag(s);
      if t.Bad? then Malformed
      else if t.value == 8 then
        var v := ReadInt32(t.rest);
        if v.Bad? then Malformed else ParseResult(f, m.(errcode := v.value), v.rest)
      else if t.value == 18 then
        var b := ReadBytes(t.rest);
        if b.Bad? then Malformed else ParseResult(f, m.(errmsg := b.value), b.rest)
      else if t.value % 8 == 4 || t.value == 0 then Malformed
      else
        var u := f(t.value, t.rest);
        if u.Bad? then Malformed else ParseResult(f, m.(unknown := m.unknown + [u.value]), u.rest)
  }

  lemma ErrmsgParses(f: FieldReader, m: ResultCode, b: seq<byte>, rest: seq<byte>)
    requires |b| < TWO32
    ensures ParseResult(f, m, WriteString(18, b) + rest)
         == if |b| > MAX_SIZE then Malformed
            else ParseResult(f, m.(errmsg := if b != [] then b else m.errmsg), rest)
  {
    if b != [] {
      JoinAssociates([18], WriteBytes(b), rest);
      TagRoundTrip(18, WriteBytes(b) + rest);
      BytesRoundTrip(b, rest);
    } else {
      assert [] + rest == rest;
    }
  }

  lemma ErrcodeParses(f: FieldReader, m: ResultCode, v: int32, rest: seq<byte>)
    ensures ParseResult(f, m, WriteErrcode(v) + rest)
         == ParseResult(f, m.(errcode := if v != 0 then v else m.errcode), rest)
  {
    if v != 0 {
      JoinAssociates([8], WriteInt32(v), rest);
      TagRoundTrip(8, WriteInt32(v) + rest);
      Int32RoundTrip(v, rest);
    } else {
      assert [] + rest == rest;
    }
  }

  lemma ResultUnknownStep(f: FieldReader, m: ResultCode, field: seq<byte>, more: seq<byte>)
    requires Rereads(f) && KeptFor(f, RESULT_TAGS, field)
    ensures ParseResult(f, m, field + more) == ParseResult(f, m.(unknown := m.unknown + [field]), more)
  {
    var tag: nat :| tag !in RESULT_TAGS && tag % 8 != 4 && tag != 0 && Keeps(f, tag, field);
    assert ReadsAgain(f, tag, field, more);
  }

  lemma {:induction false} ResultUnknownParses(f: FieldReader, m: ResultCode, fields: seq<seq<byte>>, rest: seq<byte>)
    requires Rereads(f) && AllKept(f, RESULT_TAGS, fields)
    ensures ParseResult(f, m, WriteUnknown(fields) + rest)
         == ParseResult(f, m.(unknown := m.unknown + fields), rest)
    decreases |fields|
  {
    if fields == [] {
      assert WriteUnknown(fields) + rest == rest && m.unknown + fields == m.unknown;
    } else {
      JoinAssociates(fields[0], WriteUnknown(fields[1..]), rest);
      ResultUnknownStep(f, m, fields[0], WriteUnknown(fields[1..]) + rest);
      ResultUnknownParses(f, m.(unknown := m.unknown + [fields[0]]), fields[1..], rest);
      JoinFirst(m.unknown, fields);
    }
  }

  lemma JoinFour(a: seq<byte>, b: seq<byte>, c: seq<byte>, d: seq<byte>)
    ensures a + (b + c) + d == a + (b + (c + d))
  {
    JoinAssociates(a, b + c, d);
    JoinAssociates(b, c, d);
  }

  /** Parsing a serialized message merges it into what was there, whatever follows,
      exactly when its string is short enough for the length prefix the parser accepts. */
  lemma ResultParses(f: FieldReader, m: ResultCode, b: ResultCode, rest: seq<byte>)
    requires Rereads(f) && AllKept(f, RESULT_TAGS, b.unknown) && |b.errmsg| < TWO32
    ensures ParseResult(f, m, WriteResult(b) + rest)
         == if |b.errmsg| <= MAX_SIZE then ParseResult(f, MergeResult(m, b), rest) else Malformed
  {
    var tail := WriteUnknown(b.unknown) + rest;
    var n := m.(errcode := if b.errcode != 0 then b.errcode else m.errcode);
    JoinFour(WriteErrcode(b.errcode), WriteString(18, b.errmsg), WriteUnknown(b.unknown), rest);
    ErrcodeParses(f, m, b.errcode, WriteString(18, b.errmsg) + tail);
    ErrmsgParses(f, n, b.errmsg, tail);
    if |b.errmsg| <= MAX_SIZE {
      ResultUnknownParses(f, n.(errmsg := if b.errmsg != [] then b.errmsg else m.errmsg), b.unknown, rest);
    }
  }

  lemma ResultSizeExact(m: ResultCode)
    ensures |WriteResult(m)| == ResultSize(m)
  {
    BytesSizeExact(m.errmsg);
    Int32SizeExact(m.errcode);
    UnknownSizeExact(m.unknown);
  }

  // ---------- fixbug.GetFriendsListResponse ----------

  datatype FriendsList = FriendsList(result: Option<ResultCode>, friends: seq<seq<byte>>, unknown: seq<seq<byte>>)

  const NO_FRIENDS := FriendsList(None, [], [])
  const LIST_TAGS: set<nat> := {10, 18}

  function WriteFriends(friends: seq<seq<byte>>): seq<byte> {
    if friends == [] then [] else [18] + WriteBytes(friends[0]) + WriteFriends(friends[1..])
  }

  function WriteSubmessage(r: Option<ResultCode>): seq<byte> {
    if r.Some? then [10] + WriteBytes(WriteResult(r.value)) else []
  }

  function WriteList(m: FriendsList): seq<byte> {
    WriteSubmessage(m.result) + (WriteFriends(m.friends) + WriteUnknown(m.unknown))
  }

  function FriendsSize(friends: seq<seq<byte>>): nat {
    if friends == [] then 0 else 1 + BytesSize(|friends[0]|) + FriendsSize(friends[1..])
  }

  function ListSize(m: FriendsList): nat {
    FriendsSize(m.friends) + (if m.result.Some? then 1 + BytesSize(ResultSize(m.result.value)) else 0)
    + UnknownSize(m.unknown)
  }

  /** The submessage a list has, or an empty one. */
  function ResultOf(m: FriendsList): ResultCode {
    if m.result.Some? then m.result.value else NO_RESULT
  }

  /** Submessages merge; repeated and unknown fields are appended. */
  function MergeList(a: FriendsList, b: FriendsList): FriendsList {
    FriendsList(if b.result.Some? then Some(MergeResult(ResultOf(a), b.result.value)) else a.result,
                a.friends + b.friends, a.unknown + b.unknown)
  }

  function ParseList(f: FieldReader, m: FriendsList, s: seq<byte>): Outcome<FriendsList>
    decreases |s|, 1
  {
    if s == [] then Parsed(m)
    else
      var t := ReadTag(s);
      if t.Bad? then Malformed
      else if t.value == 10 then
        var b := ReadBytes(t.rest);
        if b.Bad? then Malformed
        else
          var inner := ParseResult(f, ResultOf(m), b.value);
          if inner.Malformed? then Malformed else ParseList(f, m.(result := Some(inner.msg)), b.rest)
      else if t.value == 18 then ParseFriend(f, m, t.rest)
      else if t.value % 8 == 4 || t.value == 0 then Malformed
      else
        var u := f(t.value, t.rest);
        if u.Bad? then Malformed else ParseList(f, m.(unknown := m.unknown + [u.value]), u.rest)
  }

  /** What follows the tag of one friend. */
  function ParseFriend(f: FieldReader, m: FriendsList, s: seq<byte>): Outcome<FriendsList>
    decreases |s|, 0
  {
    var b := ReadBytes(s);
    if b.Bad? then Malformed else ParseList(f, m.(friends := m.friends + [b.value]), b.rest)
  }

  ghost predicate AllShort(friends: seq<seq<byte>>, max: nat) {
    forall i :: 0 <= i < |friends| ==> |friends[i]| <= max
  }

  /** Its submessage and its friends are short enough for the parser. */
  ghost predicate Readable(m: FriendsList) {
    (m.result.Some? ==> ResultSize(m.result.value) <= MAX_SIZE) && AllShort(m.friends, MAX_SIZE)
  }

  /** Lengths fit 32 bits, and unknown fields are what the reader kept. */
  ghost predicate Sound(f: FieldReader, m: FriendsList) {
    && (m.result.Some? ==>
          ResultSize(m.result.value) < TWO32 && AllKept(f, RESULT_TAGS, m.result.value.unknown))
    && AllShort(m.friends, TWO32 - 1) && AllKept(f, LIST_TAGS, m.unknown)
  }

  lemma FriendsFrom(friends: seq<seq<byte>>, i: nat)
    requires i < |friends|
    ensures WriteFriends(friends[i..]) == [18] + WriteBytes(friends[i]) + WriteFriends(friends[i + 1..])
  {
    assert friends[i..][1..] == friends[i + 1..];
  }

  lemma FriendStep(f: FieldReader, m: FriendsList, friend: seq<byte>, more: seq<byte>)
    requires |friend| < TWO32
    ensures ParseList(f, m, [18] + (WriteBytes(friend) + more))
         == if |friend| <= MAX_SIZE then ParseList(f, m.(friends := m.friends + [friend]), more) else Malformed
  {
    TagRoundTrip(18, WriteBytes(friend) + more);
    BytesRoundTrip(friend, more);
  }

  lemma ResultFits(r: ResultCode)
    ensures |r.errmsg| <= ResultSize(r)
  {
  }

  lemma SubmessageStep(f: FieldReader, m: FriendsList, r: ResultCode, more: seq<byte>)
    requires Rereads(f) && ResultSize(r) < TWO32 && AllKept(f, RESULT_TAGS, r.unknown)
    ensures ParseList(f, m, [10] + (WriteBytes(WriteResult(r)) + more))
         == if ResultSize(r) > MAX_SIZE then Malformed
            else ParseList(f, m.(result := Some(MergeResult(ResultOf(m), r))), more)
  {
    var body := WriteResult(r);
    ResultSizeExact(r);
    ResultFits(r);
    TagRoundTrip(10, WriteBytes(body) + more);
    BytesRoundTrip(body, more);
    ResultParses(f, ResultOf(m), r, []);
    assert body + [] == body;
  }

  lemma FirstFriend(friends: seq<seq<byte>>, rest: seq<byte>)
    requires friends != []
    ensures WriteFriends(friends) + rest == [18] + (WriteBytes(friends[0]) + (WriteFriends(friends[1..]) + rest))
  {
  }

  lemma FirstFriendParses(f: FieldReader, m: FriendsList, friends: seq<seq<byte>>, rest: seq<byte>)
    requires friends != [] && |friends[0]| < TWO32
    ensures ParseList(f, m, WriteFriends(friends) + rest)
         == if |friends[0]| > MAX_SIZE then Malformed
            else ParseList(f, m.(friends := m.friends + [friends[0]]), WriteFriends(friends[1..]) + rest)
  {
    FirstFriend(friends, rest);
    FriendStep(f, m, friends[0], WriteFriends(friends[1..]) + rest);
  }

  lemma {:induction false} FriendsParse(f: FieldReader, m: FriendsList, friends: seq<seq<byte>>, rest: seq<byte>)
    requires AllShort(friends, TWO32 - 1)
    ensures ParseList(f, m, WriteFriends(friends) + rest)
         == if AllShort(friends, MAX_SIZE) then ParseList(f, m.(friends := m.friends + friends), rest) else Malformed
    decreases |friends|
  {
    if friends == [] {
      assert WriteFriends(friends) + rest == rest;
      assert m.friends + friends == m.friends;
    } else {
      FirstFriendParses(f, m, friends, rest);
      FriendsParse(f, m.(friends := m.friends + [friends[0]]), friends[1..], rest);
      JoinFirst(m.friends, friends);
      AllShortSplit(friends, MAX_SIZE);
    }
  }

  lemma AllShortSplit(friends: seq<seq<byte>>, max: nat)
    requires friends != []
    ensures AllShort(friends, max) <==> |friends[0]| <= max && AllShort(friends[1..], max)
  {
    if AllShort(friends[1..], max) {
      forall i | 1 <= i < |friends|
        ensures |friends[i]| <= max
      {
        assert friends[i] == friends[1..][i - 1];
      }
    }
  }

  lemma SubmessageParses(f: FieldReader, m: FriendsList, r: Option<ResultCode>, rest: seq<byte>)
    requires Rereads(f)
    requires r.Some? ==> ResultSize(r.value) < TWO32 && AllKept(f, RESULT_TAGS, r.value.unknown)
    ensures ParseList(f, m, WriteSubmessage(r) + rest)
         == if r.Some? && ResultSize(r.value) > MAX_SIZE then Malformed
            else ParseList(f, m.(result := if r.Some? then Some(MergeResult(ResultOf(m), r.value)) else m.result), rest)
  {
    if r.Some? {
      JoinAssociates([10], WriteBytes(WriteResult(r.value)), rest);
      SubmessageStep(f, m, r.value, rest);
    } else {
      assert [] + rest == rest;
    }
  }

  lemma ListUnknownStep(f: FieldReader, m: FriendsList, field: seq<byte>, more: seq<byte>)
    requires Rereads(f) && KeptFor(f, LIST_TAGS, field)
    ensures ParseList(f, m, field + more) == ParseList(f, m.(unknown := m.unknown + [field]), more)
  {
    var tag: nat :| tag !in LIST_TAGS && tag % 8 != 4 && tag != 0 && Keeps(f, tag, field);
    assert ReadsAgain(f, tag, field, more);
  }

  lemma {:induction false} ListUnknownParses(f: FieldReader, m: FriendsList, fields: seq<seq<byte>>, rest: seq<byte>)
    requires Rereads(f) && AllKept(f, LIST_TAGS, fields)
    ensures ParseList(f, m, WriteUnknown(fields) + rest) == ParseList(f, m.(unknown := m.unknown + fields), rest)
    decreases |fields|
  {
    if fields == [] {
      assert WriteUnknown(fields) + rest == rest && m.unknown + fields == m.unknown;
    } else {
      JoinAssociates(fields[0], WriteUnknown(fields[1..]), rest);
      ListUnknownStep(f, m, fields[0], WriteUnknown(fields[1..]) + rest);
      ListUnknownParses(f, m.(unknown := m.unknown + [fields[0]]), fields[1..], rest);
      JoinFirst(m.unknown, fields);
    }
  }

  /** The same for the message with a submessage and a repeated field: it is merged
      exactly when the submessage and every friend are short enough. */
  lemma ListParses(f: FieldReader, m: FriendsList, b: FriendsList, rest: seq<byte>)
    requires Rereads(f) && Sound(f, b)
    ensures ParseList(f, m, WriteList(b) + rest)
         == if Readable(b) then ParseList(f, MergeList(m, b), rest) else Malformed
  {
    var tail := WriteUnknown(b.unknown) + rest;
    JoinFour(WriteSubmessage(b.result), WriteFriends(b.friends), WriteUnknown(b.unknown), rest);
    SubmessageParses(f, m, b.result, WriteFriends(b.friends) + tail);
    var n := m.(result := MergeList(m, b).result);
    FriendsParse(f, n, b.friends, tail);
    ListUnknownParses(f, n.(friends := m.friends + b.friends), b.unknown, rest);
  }

  lemma NothingMerged(a: FriendsList)
    ensures MergeList(NO_FRIENDS, a) == a
  {
    assert [] + a.friends == a.friends && [] + a.unknown == a.unknown;
    if a.result.Some? {
      assert [] + a.result.value.unknown == a.result.value.unknown;
    }
  }

  /** Parsing one message after another merges the second into the first; so parsing
      undoes serializing. Both hold exactly when all parts are short enough. */
  lemma ListConcatenationMerges(f: FieldReader, a: FriendsList, b: FriendsList)
    requires Rereads(f) && Sound(f, a) && Sound(f, b)
    ensures ParseList(f, NO_FRIENDS, WriteList(a) + WriteList(b))
         == if Readable(a) && Readable(b) then Parsed(MergeList(a, b)) else Malformed
    ensures ParseList(f, NO_FRIENDS, WriteList(a)) == if Readable(a) then Parsed(a) else Malformed
  {
    NothingMerged(a);
    ListParses(f, NO_FRIENDS, a, WriteList(b));
    ListParses(f, a, b, []);
    ListParses(f, NO_FRIENDS, a, []);
    assert WriteList(a) + [] == WriteList(a) && WriteList(b) + [] == WriteList(b);
  }

  lemma {:induction false} FriendsSizeExact(friends: seq<seq<byte>>)
    ensures |WriteFriends(friends)| == FriendsSize(friends)
    decreases |friends|
  {
    if friends != [] {
      BytesSizeExact(friends[0]);
      FriendsSizeExact(friends[1..]);
    }
  }

  lemma ListSizeExact(m: FriendsList)
    ensures |WriteList(m)| == ListSize(m)
  {
    FriendsSizeExact(m.friends);
    UnknownSizeExact(m.unknown);
    if m.result.Some? {
      ResultSizeExact(m.result.value);
      BytesSizeExact(WriteResult(m.result.value));
    }
  }

  // ---------- mprpc.RpcHeader ----------

  datatype RpcHeader = RpcHeader(service: seq<byte>, method_: seq<byte>, args_size: uint32, unknown: seq<seq<byte>>)

  const NO_HEADER := RpcHeader([], [], 0, [])
  const HEADER_TAGS: set<nat> := {10, 18, 24}

  function WriteArgsSize(v: uint32): seq<byte> {
    if v != 0 then [24] + Varint(v) else []
  }

  function WriteHeader(m: RpcHeader): seq<byte> {
    WriteString(10, m.service) + (WriteString(18, m.method_) + (WriteArgsSize(m.args_size) + WriteUnknown(m.unknown)))
  }

  function HeaderSize(m: RpcHeader): nat {
    (if m.service != [] then 1 + BytesSize(|m.service|) else 0)
    + (if m.method_ != [] then 1 + BytesSize(|m.method_|) else 0)
    + (if m.args_size != 0 then 1 + VarintSize(m.args_size) else 0)
    + UnknownSize(m.unknown)
  }

  function MergeHeader(a: RpcHeader, b: RpcHeader): RpcHeader {
    RpcHeader(if b.service != [] then b.service else a.service,
              if b.method_ != [] then b.method_ else a.method_,
              if b.args_size != 0 then b.args_size else a.args_size,
              a.unknown + b.unknown)
  }

  function ParseHeader(f: FieldReader, m: RpcHeader, s: seq<byte>): Outcome<RpcHeader>
    decreases |s|
  {
    if s == [] then Parsed(m)
    else
      var t := ReadTag(s);
      if t.Bad? then Malformed
      else if t.value == 10 then
        var b := ReadBytes(t.rest);
        if b.Bad? then Malformed else ParseHeader(f, m.(service := b.value), b.rest)
      else if t.value == 18 then
        var b := ReadBytes(t.rest);
        if b.Bad? then Malformed else ParseHeader(f, m.(method_ := b.value), b.rest)
      else if t.value == 24 then
        var v := ReadVarint32(t.rest);
        if v.Bad? then Malformed else ParseHeader(f, m.(args_size := v.value), v.rest)
      else if t.value % 8 == 4 || t.value == 0 then Malformed
      else
        var u := f(t.value, t.rest);
        if u.Bad? then Malformed else ParseHeader(f, m.(unknown := m.unknown + [u.value]), u.rest)
  }

  lemma ArgsSizeParses(f: FieldReader, m: RpcHeader, v: uint32, rest: seq<byte>)
    ensures ParseHeader(f, m, WriteArgsSize(v) + rest)
         == ParseHeader(f, m.(args_size := if v != 0 then v else m.args_size), rest)
  {
    if v != 0 {
      JoinAssociates([24], Varint(v), rest);
      TagRoundTrip(24, Varint(v) + rest);
      Uint32RoundTrip(v, rest);
    } else {
      assert [] + rest == rest;
    }
  }

  lemma MethodParses(f: FieldReader, m: RpcHeader, b: seq<byte>, rest: seq<byte>)
    requires |b| < TWO32
    ensures ParseHeader(f, m, WriteString(18, b) + rest)
         == if |b| > MAX_SIZE then Malformed
            else ParseHeader(f, m.(method_ := if b != [] then b else m.method_), rest)
  {
    if b != [] {
      JoinAssociates([18], WriteBytes(b), rest);
      TagRoundTrip(18, WriteBytes(b) + rest);
      BytesRoundTrip(b, rest);
    } else {
      assert [] + rest == rest;
    }
  }

  lemma ServiceParses(f: FieldReader, m: RpcHeader, b: seq<byte>, rest: seq<byte>)
    requires |b| < TWO32
    ensures ParseHeader(f, m, WriteString(10, b) + rest)
         == if |b| > MAX_SIZE then Malformed
            else ParseHeader(f, m.(service := if b != [] then b else m.service), rest)
  {
    if b != [] {
      JoinAssociates([10], WriteBytes(b), rest);
      TagRoundTrip(10, WriteBytes(b) + rest);
      BytesRoundTrip(b, rest);
    } else {
      assert [] + rest == rest;
    }
  }

  lemma HeaderUnknownStep(f: FieldReader, m: RpcHeader, field: seq<byte>, more: seq<byte>)
    requires Rereads(f) && KeptFor(f, HEADER_TAGS, field)
    ensures ParseHeader(f, m, field + more) == ParseHeader(f, m.(unknown := m.unknown + [field]), more)
  {
    var tag: nat :| tag !in HEADER_TAGS && tag % 8 != 4 && tag != 0 && Keeps(f, tag, field);
    assert ReadsAgain(f, tag, field, more);
  }

  lemma {:induction false} HeaderUnknownParses(f: FieldReader, m: RpcHeader, fields: seq<seq<byte>>, rest: seq<byte>)
    requires fields != [] ==> Rereads(f)
    requires AllKept(f, HEADER_TAGS, fields)
    ensures ParseHeader(f, m, WriteUnknown(fields) + rest)
         == ParseHeader(f, m.(unknown := m.unknown + fields), rest)
    decreases |fields|
  {
    if fields == [] {
      assert WriteUnknown(fields) + rest == rest && m.unknown + fields == m.unknown;
    } else {
      JoinAssociates(fields[0], WriteUnknown(fields[1..]), rest);
      HeaderUnknownStep(f, m, fields[0], WriteUnknown(fields[1..]) + rest);
      HeaderUnknownParses(f, m.(unknown := m.unknown + [fields[0]]), fields[1..], rest);
      JoinFirst(m.unknown, fields);
    }
  }

  /** A serialized header is merged exactly when both names are short enough for the
      length prefix the parser accepts; otherwise parsing fails. The reader of unknown
      fields matters only when there are some. */
  lemma HeaderParses(f: FieldReader, m: RpcHeader, b: RpcHeader, rest: seq<byte>)
    requires b.unknown != [] ==> Rereads(f)
    requires AllKept(f, HEADER_TAGS, b.unknown) && |b.service| < TWO32 && |b.method_| < TWO32
    ensures ParseHeader(f, m, WriteHeader(b) + rest)
         == if |b.service| <= MAX_SIZE && |b.method_| <= MAX_SIZE then ParseHeader(f, MergeHeader(m, b), rest)
            else Malformed
  {
    var unknown, size := WriteUnknown(b.unknown), WriteArgsSize(b.args_size);
    JoinAssociates(WriteString(10, b.service), WriteString(18, b.method_) + (size + unknown), rest);
    JoinFour(WriteString(18, b.method_), size, unknown, rest);
    ServiceParses(f, m, b.service, WriteString(18, b.method_) + (size + (unknown + rest)));
    var n := m.(service := if b.service != [] then b.service else m.service);
    MethodParses(f, n, b.method_, size + (unknown + rest));
    var o := n.(method_ := if b.method_ != [] then b.method_ else m.method_);
    ArgsSizeParses(f, o, b.args_size, unknown + rest);
    HeaderUnknownParses(f, o.(args_size := if b.args_size != 0 then b.args_size else m.args_size), b.unknown, rest);
  }

  lemma HeaderSizeExact(m: RpcHeader)
    ensures |WriteHeader(m)| == HeaderSize(m)
  {
    BytesSizeExact(m.service);
    BytesSizeExact(m.method_);
    VarintLength(m.args_size);
    UnknownSizeExact(m.unknown);
  }

  lemma HeaderJoins(m: RpcHeader)
    ensures WriteHeader(m)
         == WriteString(10, m.service) + WriteString(18, m.method_) + WriteArgsSize(m.args_size)
            + WriteUnknown(m.unknown)
  {
    var a, b := WriteString(10, m.service), WriteString(18, m.method_);
    var c, d := WriteArgsSize(m.args_size), WriteUnknown(m.unknown);
    JoinAssociates(a + b, c, d);
    JoinAssociates(a, b, c + d);
  }

  ghost predicate NamesShort(m: RpcHeader) {
    |m.service| <= MAX_SIZE && |m.method_| <= MAX_SIZE
  }

  lemma HeaderConcatenationMerges(f: FieldReader, a: RpcHeader, b: RpcHeader)
    requires Rereads(f) && AllKept(f, HEADER_TAGS, a.unknown) && AllKept(f, HEADER_TAGS, b.unknown)
    requires |a.service| < TWO32 && |a.method_| < TWO32 && |b.service| < TWO32 && |b.method_| < TWO32
    ensures ParseHeader(f, NO_HEADER, WriteHeader(a) + WriteHeader(b))
         == if NamesShort(a) && NamesShort(b) then Parsed(MergeHeader(a, b)) else Malformed
    ensures ParseHeader(f, NO_HEADER, WriteHeader(a)) == if NamesShort(a) then Parsed(a) else Malformed
  {
    assert [] + a.unknown == a.unknown && MergeHeader(NO_HEADER, a) == a;
    HeaderParses(f, NO_HEADER, a, WriteHeader(b));
    HeaderParses(f, a, b, []);
    HeaderParses(f, NO_HEADER, a, []);
    assert WriteHeader(a) + [] == WriteHeader(a) && WriteHeader(b) + [] == WriteHeader(b);
  }

  // ---------- what parsing accepts ----------

  lemma KeptMore(f: FieldReader, known: set<nat>, fields: seq<seq<byte>>, tag: nat, s: seq<byte>)
    requires AllKept(f, known, fields) && tag !in known && tag % 8 != 4 && tag != 0 && f(tag, s).Got?
    ensures AllKept(f, known, fields + [f(tag, s).value])
  {
    assert Keeps(f, tag, f(tag, s).value);
    assert KeptFor(f, known, f(tag, s).value);
  }

  /** Whatever bytes it came from, a parsed header has short names and kept fields. */
  lemma {:induction false} ParsedHeaderSound(f: FieldReader, m: RpcHeader, s: seq<byte>)
    requires NamesShort(m) && AllKept(f, HEADER_TAGS, m.unknown) && ParseHeader(f, m, s).Parsed?
    ensures var n := ParseHeader(f, m, s).msg;
      NamesShort(n) && AllKept(f, HEADER_TAGS, n.unknown)
    decreases |s|
  {
    if s != [] {
      var t := ReadTag(s);
      if t.value == 10 {
        var b := ReadBytes(t.rest);
        ParsedHeaderSound(f, m.(service := b.value), b.rest);
      } else if t.value == 18 {
        var b := ReadBytes(t.rest);
        ParsedHeaderSound(f, m.(method_ := b.value), b.rest);
      } else if t.value == 24 {
        var v := ReadVarint32(t.rest);
        ParsedHeaderSound(f, m.(args_size := v.value), v.rest);
      } else {
        var u := f(t.value, t.rest);
        KeptMore(f, HEADER_TAGS, m.unknown, t.value, t.rest);
        ParsedHeaderSound(f, m.(unknown := m.unknown + [u.value]), u.rest);
      }
    }
  }

  /** So any bytes the parser accepts can be written out again, unknown fields and all,
      and parse to the same header. */
  lemma HeaderReserializes(f: FieldReader, s: seq<byte>)
    requires Rereads(f) && ParseHeader(f, NO_HEADER, s).Parsed?
    ensures var m := ParseHeader(f, NO_HEADER, s).msg;
      ParseHeader(f, NO_HEADER, WriteHeader(m)) == Parsed(m)
  {
    ParsedHeaderSound(f, NO_HEADER, s);
    var m := ParseHeader(f, NO_HEADER, s).msg;
    HeaderConcatenationMerges(f, m, NO_HEADER);
  }

  lemma {:induction false} ParsedResultSound(f: FieldReader, m: ResultCode, s: seq<byte>)
    requires |m.errmsg| <= MAX_SIZE && AllKept(f, RESULT_TAGS, m.unknown) && ParseResult(f, m, s).Parsed?
    ensures var n := ParseResult(f, m, s).msg;
      |n.errmsg| <= MAX_SIZE && AllKept(f, RESULT_TAGS, n.unknown)
    decreases |s|
  {
    if s != [] {
      var t := ReadTag(s);
      if t.value == 8 {
        var v := ReadInt32(t.rest);
        ParsedResultSound(f, m.(errcode := v.value), v.rest);
      } else if t.value == 18 {
        var b := ReadBytes(t.rest);
        ParsedResultSound(f, m.(errmsg := b.value), b.rest);
      } else {
        var u := f(t.value, t.rest);
        KeptMore(f, RESULT_TAGS, m.unknown, t.value, t.rest);
        ParsedResultSound(f, m.(unknown := m.unknown + [u.value]), u.rest);
      }
    }
  }

  ghost predicate ListKept(f: FieldReader, m: FriendsList) {
    && |ResultOf(m).errmsg| <= MAX_SIZE && AllKept(f, RESULT_TAGS, ResultOf(m).unknown)
    && AllShort(m.friends, MAX_SIZE) && AllKept(f, LIST_TAGS, m.unknown)
  }

  lemma {:induction false} ParsedListSound(f: FieldReader, m: FriendsList, s: seq<byte>)
    requires ListKept(f, m) && ParseList(f, m, s).Parsed?
    ensures ListKept(f, ParseList(f, m, s).msg)
    decreases |s|
  {
    if s != [] {
      var t := ReadTag(s);
      if t.value == 10 {
        var b := ReadBytes(t.rest);
        ParsedResultSound(f, ResultOf(m), b.value);
        ParsedListSound(f, m.(result := Some(ParseResult(f, ResultOf(m), b.value).msg)), b.rest);
      } else if t.value == 18 {
        var b := ReadBytes(t.rest);
        ParsedListSound(f, m.(friends := m.friends + [b.value]), b.rest);
      } else {
        var u := f(t.value, t.rest);
        KeptMore(f, LIST_TAGS, m.unknown, t.value, t.rest);
        ParsedListSound(f, m.(unknown := m.unknown + [u.value]), u.rest);
      }
    }
  }

  /** The same of a list, exactly when its submessage, merged from any number of pieces,
      is still short enough. */
  lemma ListReserializes(f: FieldReader, s: seq<byte>)
    requires Rereads(f) && ParseList(f, NO_FRIENDS, s).Parsed?
    requires ResultSize(ResultOf(ParseList(f, NO_FRIENDS, s).msg)) < TWO32
    ensures var m := ParseList(f, NO_FRIENDS, s).msg;
      ParseList(f, NO_FRIENDS, WriteList(m))
        == if m.result.Some? && ResultSize(m.result.value) > MAX_SIZE then Malformed else Parsed(m)
  {
    ParsedListSound(f, NO_FRIENDS, s);
    var m := ParseList(f, NO_FRIENDS, s).msg;
    ListConcatenationMerges(f, m, NO_FRIENDS);
  }

  // ---------- examples and rejections ----------

  /** One message of each kind as the specification has its bytes. */
  lemma Examples()
    ensures WriteResult(ResultCode(150, [116, 101], [])) == [8, 150, 1, 18, 2, 116, 101]
    ensures WriteList(FriendsList(Some(ResultCode(1, [], [])), [[97], [98, 99]], []))
         == [10, 2, 8, 1, 18, 1, 97, 18, 2, 98, 99]
    ensures WriteHeader(RpcHeader([85], [76], 3, [])) == [10, 1, 85, 18, 1, 76, 24, 3]
  {
    Wire.Examples();
    assert WriteUnknown([]) == [];
    assert WriteErrcode(1) == [8, 1] && WriteResult(ResultCode(1, [], [])) == [8, 1];
    assert WriteFriends([[97], [98, 99]]) == [18] + WriteBytes([97]) + WriteFriends([[98, 99]]);
    assert WriteFriends([[98, 99]]) == [18] + WriteBytes([98, 99]) + WriteFriends([]);
  }

  /** No message goes on after a tag it cannot read, a zero tag, the tag that ends a group,
      or an unknown field its reader turns down. */
  predicate TurnedDown(f: FieldReader, known: set<nat>, s: seq<byte>) {
    var t := ReadTag(s);
    s != [] && (t.Bad? || t.value == 0 || (t.value !in known && (t.value % 8 == 4 || f(t.value, t.rest).Bad?)))
  }

  lemma Rejections(f: FieldReader, s: seq<byte>)
    ensures TurnedDown(f, {8, 18}, s) ==> forall m :: ParseResult(f, m, s) == Malformed
    ensures TurnedDown(f, {10, 18}, s) ==> forall m :: ParseList(f, m, s) == Malformed
    ensures TurnedDown(f, {10, 18, 24}, s) ==> forall m :: ParseHeader(f, m, s) == Malformed
  {
  }

  // ---------- the generated classes ----------

  /** How a parse loop ends. */
  datatype Status = Success | Failure

  ghost function Ended<T>(o: Outcome<T>): Status {
    match o
    case Parsed(_) => Success
    case Malformed => Failure
  }

  class ResultCodeMessage {
    var errcode: int32
    var errmsg: seq<byte>
    var unknown: seq<seq<byte>>

    function View(): ResultCode
      reads this
    {
      ResultCode(errcode, errmsg, unknown)
    }

    constructor ()
      ensures View() == NO_RESULT
    {
      errcode, errmsg, unknown := 0, [], [];
    }

    /** The parse loop: reads tag after tag until the input is used up. */
    method InternalParse(input: seq<byte>, other: FieldReader) returns (status: Status)
      modifies this
      ensures status == Ended(ParseResult(other, old(View()), input))
      ensures status == Success ==> ParseResult(other, old(View()), input) == Parsed(View())
    {
      var ptr := input;
      while ptr != []
        invariant ParseResult(other, old(View()), input) == ParseResult(other, View(), ptr)
        decreases |ptr|
      {
        var tag := ReadTag(ptr);
        if tag.Bad? { return Failure; }
        if tag.value == 8 {
          var v := ReadInt32(tag.rest);
          if v.Bad? { return Failure; }
          errcode, ptr := v.value, v.rest;
        } else if tag.value == 18 {
          var b := ReadBytes(tag.rest);
          if b.Bad? { return Failure; }
          errmsg, ptr := b.value, b.rest;
        } else if tag.value % 8 == 4 || tag.value == 0 {
          return Failure;
        } else {
          var u := other(tag.value, tag.rest);
          if u.Bad? { return Failure; }
          unknown, ptr := unknown + [u.value], u.rest;
        }
      }
      status := Success;
    }

    method InternalSerialize() returns (target: seq<byte>)
      ensures target == WriteResult(View())
    {
      target := [];
      if errcode != 0 {
        target := [8] + WriteInt32(errcode);
      }
      assert target == WriteErrcode(errcode);
      if |errmsg| > 0 {
        target := target + ([18] + WriteBytes(errmsg));
      }
      assert target == WriteErrcode(errcode) + WriteString(18, errmsg);
      if |unknown| > 0 {
        target := target + WriteUnknown(unknown);
      }
      JoinAssociates(WriteErrcode(errcode), WriteString(18, errmsg), WriteUnknown(unknown));
    }

    method ByteSizeLong() returns (totalSize: nat)
      ensures totalSize == |WriteResult(View())|
    {
      ResultSizeExact(View());
      totalSize := 0;
      if |errmsg| > 0 {
        totalSize := totalSize + 1 + BytesSize(|errmsg|);
      }
      if errcode != 0 {
        totalSize := totalSize + 1 + Int32Size(errcode);
      }
      if |unknown| > 0 {
        totalSize := totalSize + UnknownSize(unknown);
      }
    }

    method MergeFrom(from: ResultCodeMessage)
      modifies this
      ensures View() == MergeResult(old(View()), old(from.View()))
    {
      unknown := unknown + from.unknown;
      if |from.errmsg| > 0 {
        errmsg := from.errmsg;
      }
      if from.errcode != 0 {
        errcode := from.errcode;
      }
    }
  }

  class FriendsListMessage {
    var result: ResultCodeMessage?
    var friends: seq<seq<byte>>
    var unknown: seq<seq<byte>>

    function View(): FriendsList
      reads this, result
    {
      FriendsList(if result == null then None else Some(result.View()), friends, unknown)
    }

    constructor ()
      ensures View() == NO_FRIENDS
    {
      result, friends, unknown := null, [], [];
    }

    /** The submessage, made on first use. */
    method MutableResult() returns (r: ResultCodeMessage)
      modifies this`result
      ensures result == r && r.View() == old(ResultOf(View()))
      ensures old(result) == null ==> fresh(r)
      ensures old(result) != null ==> r == old(result)
    {
      if result == null {
        result := new ResultCodeMessage();
      }
      r := result;
    }

    /** The parse loop, with its inner loop over consecutive friends. */
    method InternalParse(input: seq<byte>, other: FieldReader) returns (status: Status)
      modifies this, result
      ensures status == Ended(ParseList(other, old(View()), input))
      ensures status == Success ==> ParseList(other, old(View()), input) == Parsed(View())
    {
      var ptr := input;
      while ptr != []
        invariant ParseList(other, old(View()), input) == ParseList(other, View(), ptr)
        invariant result == old(result) || fresh(result)
        decreases |ptr|
      {
        var tag := ReadTag(ptr);
        if tag.Bad? { return Failure; }
        if tag.value == 10 {
          var b := ReadBytes(tag.rest);
          if b.Bad? { return Failure; }
          var r := MutableResult();
          var inner := r.InternalParse(b.value, other);
          if inner != Success { return inner; }
          ptr := b.rest;
        } else if tag.value == 18 {
          ptr := tag.rest;
          while true
            invariant ParseList(other, old(View()), input) == ParseFriend(other, View(), ptr)
            invariant result == old(result) || fresh(result)
            invariant |ptr| <= |tag.rest|
            decreases |ptr|
          {
            var b := ReadBytes(ptr);
            if b.Bad? { return Failure; }
            friends, ptr := friends + [b.value], b.rest;
            if ptr == [] { break; }
            if ptr[0] != 18 { break; }
            TagRoundTrip(18, ptr[1..]);
            assert ptr == [18] + ptr[1..];
            ptr := ptr[1..];
          }
        } else if tag.value % 8 == 4 || tag.value == 0 {
          return Failure;
        } else {
          var u := other(tag.value, tag.rest);
          if u.Bad? { return Failure; }
          unknown, ptr := unknown + [u.value], u.rest;
        }
      }
      status := Success;
    }

    method InternalSerialize() returns (target: seq<byte>)
      ensures target == WriteList(View())
    {
      target := [];
      if result != null {
        var body := result.InternalSerialize();
        target := [10] + WriteBytes(body);
      }
      ghost var front := target;
      ghost var whole := target + WriteFriends(friends);
      assert friends[0..] == friends;
      for i := 0 to |friends|
        invariant target + WriteFriends(friends[i..]) == whole
      {
        FriendsFrom(friends, i);
        JoinAssociates(target, [18] + WriteBytes(friends[i]), WriteFriends(friends[i + 1..]));
        target := target + ([18] + WriteBytes(friends[i]));
      }
      assert target + [] == target;
      if |unknown| > 0 {
        target := target + WriteUnknown(unknown);
      }
      JoinAssociates(front, WriteFriends(friends), WriteUnknown(unknown));
    }

    method ByteSizeLong() returns (totalSize: nat)
      ensures totalSize == |WriteList(View())|
    {
      totalSize := 1 * |friends|;
      assert friends[0..] == friends;
      for i := 0 to |friends|
        invariant totalSize + FriendsSize(friends[i..]) == |friends| - i + FriendsSize(friends)
      {
        assert friends[i..][1..] == friends[i + 1..];
        totalSize := totalSize + BytesSize(|friends[i]|);
      }
      if result != null {
        totalSize := totalSize + 1 + BytesSize(ResultSize(result.View()));
      }
      if |unknown| > 0 {
        totalSize := totalSize + UnknownSize(unknown);
      }
      ListSizeExact(View());
    }

    method MergeFrom(from: FriendsListMessage)
      requires from != this && (from.result == null || from.result != result)
      modifies this, result
      ensures View() == MergeList(old(View()), old(from.View()))
    {
      unknown := unknown + from.unknown;
      friends := friends + from.friends;
      if from.result != null {
        var r := MutableResult();
        r.MergeFrom(from.result);
      }
    }
  }

  class RpcHeaderMessage {
    var service: seq<byte>
    var method_: seq<byte>
    var args_size: uint32
    var unknown: seq<seq<byte>>

    function View(): RpcHeader
      reads this
    {
      RpcHeader(service, method_, args_size, unknown)
    }

    constructor ()
      ensures View() == NO_HEADER
    {
      service, method_, args_size, unknown := [], [], 0, [];
    }

    method InternalParse(input: seq<byte>, other: FieldReader) returns (status: Status)
      modifies this
      ensures status == Ended(ParseHeader(other, old(View()), input))
      ensures status == Success ==> ParseHeader(other, old(View()), input) == Parsed(View())
    {
      var ptr := input;
      while ptr != []
        invariant ParseHeader(other, old(View()), input) == ParseHeader(other, View(), ptr)
        decreases |ptr|
      {
        var tag := ReadTag(ptr);
        if tag.Bad? { return Failure; }
        if tag.value == 10 {
          var b := ReadBytes(tag.rest);
          if b.Bad? { return Failure; }
          service, ptr := b.value, b.rest;
        } else if tag.value == 18 {
          var b := ReadBytes(tag.rest);
          if b.Bad? { return Failure; }
          method_, ptr := b.value, b.rest;
        } else if tag.value == 24 {
          var v := ReadVarint32(tag.rest);
          if v.Bad? { return Failure; }
          args_size, ptr := v.value, v.rest;
        } else if tag.value % 8 == 4 || tag.value == 0 {
          return Failure;
        } else {
          var u := other(tag.value, tag.rest);
          if u.Bad? { return Failure; }
          unknown, ptr := unknown + [u.value], u.rest;
        }
      }
      status := Success;
    }

    method InternalSerialize() returns (target: seq<byte>)
      ensures target == WriteHeader(View())
    {
      target := [];
      if |service| > 0 {
        target := [10] + WriteBytes(service);
      }
      assert target == WriteString(10, service);
      if |method_| > 0 {
        target := target + ([18] + WriteBytes(method_));
      }
      assert target == WriteString(10, service) + WriteString(18, method_);
      target := SerializeRest(target);
      HeaderJoins(View());
    }

    /** The last field and the unknown ones. */
    method SerializeRest(front: seq<byte>) returns (target: seq<byte>)
      ensures target == front + WriteArgsSize(args_size) + WriteUnknown(unknown)
    {
      target := front;
      if args_size != 0 {
        target := target + ([24] + Varint(args_size));
      }
      assert target == front + WriteArgsSize(args_size);
      if |unknown| > 0 {
        target := target + WriteUnknown(unknown);
      }
    }

    method ByteSizeLong() returns (totalSize: nat)
      ensures totalSize == |WriteHeader(View())|
    {
      HeaderSizeExact(View());
      totalSize := 0;
      if |service| > 0 {
        totalSize := totalSize + 1 + BytesSize(|service|);
      }
      if |method_| > 0 {
        totalSize := totalSize + 1 + BytesSize(|method_|);
      }
      if args_size != 0 {
        totalSize := totalSize + 1 + VarintSize(args_size);
      }
      if |unknown| > 0 {
        totalSize := totalSize + UnknownSize(unknown);
      }
    }

    method MergeFrom(from: RpcHeaderMessage)
      modifies this
      ensures View() == MergeHeader(old(View()), old(from.View()))
    {
      unknown := unknown + from.unknown;
      if |from.service| > 0 {
        service := from.service;
      }
      if |from.method_| > 0 {
        method_ := from.method_;
      }
      if from.args_size != 0 {
        args_size := from.args_size;
      }
    }
  }
}
