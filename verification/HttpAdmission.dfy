/** The ASGI boundary in front of `POST /route`: per-address limit, declared length, then admission of
the real body, byte-bounded and delivered once.

Header names and values are byte strings, written here one character per byte. */
module HttpAdmission {
  import opened Wrappers
  import opened Decimal
  import opened Utf8
  import RateLimiter

  // ---------------------------------------------------------------------------------------------
  // The declared length
  // ---------------------------------------------------------------------------------------------

  datatype Header = Header(name: string, value: string)

  function Lower(s: string): string {
    seq(|s|, i requires 0 <= i < |s| =>
      if 'A' <= s[i] <= 'Z' then (s[i] as int + 32) as char else s[i])
  }

  predicate IsBlank(c: char) { c == ' ' || c == '\t' }

  predicate Blank(s: string) { forall i :: 0 <= i < |s| ==> IsBlank(s[i]) }

  function StripLeft(s: string): string {
    if s != "" && IsBlank(s[0]) then StripLeft(s[1..]) else s
  }

  function StripRight(s: string): string {
    if s != "" && IsBlank(s[|s| - 1]) then StripRight(s[..|s| - 1]) else s
  }

  /** `value.strip(b" \t")`. */
  function Strip(s: string): string { StripRight(StripLeft(s)) }

  lemma {:induction false} StripLeftSplits(s: string) returns (before: string)
    ensures s == before + StripLeft(s) && Blank(before)
    ensures StripLeft(s) != "" ==> !IsBlank(StripLeft(s)[0])
  {
    if s != "" && IsBlank(s[0]) {
      var rest := StripLeftSplits(s[1..]);
      before := [s[0]] + rest;
      assert s == [s[0]] + s[1..];
    } else {
      before := "";
    }
  }

  lemma {:induction false} StripRightSplits(s: string) returns (after: string)
    ensures s == StripRight(s) + after && Blank(after)
    ensures StripRight(s) != "" ==> !IsBlank(StripRight(s)[|StripRight(s)| - 1])
  {
    if s != "" && IsBlank(s[|s| - 1]) {
      var rest := StripRightSplits(s[..|s| - 1]);
      after := rest + [s[|s| - 1]];
      assert s == s[..|s| - 1] + [s[|s| - 1]];
    } else {
      after := "";
    }
  }

  /** What stripping means: spaces and tabs off both ends, nothing else. */
  lemma StripSplits(s: string) returns (before: string, after: string)
    ensures s == before + Strip(s) + after
    ensures forall c :: c in before || c in after ==> c == ' ' || c == '\t'
    ensures Strip(s) != "" ==>
              var first, last := Strip(s)[0], Strip(s)[|Strip(s)| - 1];
              first != ' ' && first != '\t' && last != ' ' && last != '\t'
  {
    before := StripLeftSplits(s);
    after := StripRightSplits(StripLeft(s));
    if Strip(s) != "" {
      assert Strip(s)[0] == StripLeft(s)[0];
    }
  }

  /** The trimmed values of every Content-Length field, in order. */
  function ContentLengths(headers: seq<Header>): seq<string> {
    if headers == [] then [] else
      var last := headers[|headers| - 1];
      ContentLengths(headers[..|headers| - 1])
      + if Lower(last.name) == "content-length" then [Strip(last.value)] else []
  }

  const CONTENT_LENGTH := "content-length"

  /** The field name, in any case. */
  predicate NamesLength(name: string) {
    && |name| == |CONTENT_LENGTH|
    && forall i :: 0 <= i < |name| ==>
         || name[i] == CONTENT_LENGTH[i]
         || ('A' <= name[i] <= 'Z' && name[i] as int + 'a' as int == CONTENT_LENGTH[i] as int + 'A' as int)
  }

  lemma NamesLengthExactly(name: string)
    ensures Lower(name) == "content-length" <==> NamesLength(name)
  {
    if Lower(name) == CONTENT_LENGTH {
      assert forall i :: 0 <= i < |name| ==> Lower(name)[i] == CONTENT_LENGTH[i];
    }
  }

  /** Header `i` is a length field, and the only one. */
  predicate OnlyLength(headers: seq<Header>, i: nat)
    requires i < |headers|
  {
    NamesLength(headers[i].name) && forall j :: 0 <= j < |headers| && j != i ==> !NamesLength(headers[j].name)
  }

  predicate NoLength(headers: seq<Header>) {
    forall i :: 0 <= i < |headers| ==> !NamesLength(headers[i].name)
  }

  lemma {:induction false} NoContentLengths(headers: seq<Header>)
    ensures ContentLengths(headers) == [] <==> NoLength(headers)
  {
    if headers != [] {
      var before, last := headers[..|headers| - 1], headers[|headers| - 1];
      NoContentLengths(before);
      NamesLengthExactly(last.name);
      assert headers == before + [last];
    }
  }

  /** The only length field gives the only length found. */
  lemma {:induction false} OnlyLengthFound(headers: seq<Header>, i: nat)
    requires i < |headers| && OnlyLength(headers, i)
    ensures ContentLengths(headers) == [Strip(headers[i].value)]
  {
    var n := |headers| - 1;
    var before := headers[..n];
    NamesLengthExactly(headers[n].name);
    if i < n {
      OnlyLengthFound(before, i);
    } else {
      NoContentLengths(before);
    }
  }

  lemma {:induction false} SomeOnlyLength(headers: seq<Header>) returns (i: nat)
    requires |ContentLengths(headers)| == 1
    ensures i < |headers| && OnlyLength(headers, i)
  {
    var n := |headers| - 1;
    var before := headers[..n];
    NamesLengthExactly(headers[n].name);
    NoContentLengths(before);
    if NamesLength(headers[n].name) {
      i := n;
    } else {
      i := SomeOnlyLength(before);
    }
  }

  predicate IsNumeral(s: string) { s != "" && AllDigits(s) }

  /** The declared length decides, field by field: 400 for two length fields or for one that is not digits
  throughout, 413 for digits above the cap. */
  lemma DeclaredLengthExactly(headers: seq<Header>, maxBodyBytes: nat)
    ensures |ContentLengths(headers)| > 1 <==>
              !NoLength(headers) && forall i :: 0 <= i < |headers| ==> !OnlyLength(headers, i)
    ensures forall i :: 0 <= i < |headers| && OnlyLength(headers, i) ==>
              && ContentLengths(headers) == [Strip(headers[i].value)]
              && (IsNumeral(ContentLengths(headers)[0]) <==>
                    && Strip(headers[i].value) != ""
                    && forall k :: 0 <= k < |Strip(headers[i].value)| ==> '0' <= Strip(headers[i].value)[k] <= '9')
  {
    NoContentLengths(headers);
    if |ContentLengths(headers)| == 1 {
      var i := SomeOnlyLength(headers);
    }
    forall i | 0 <= i < |headers| && OnlyLength(headers, i)
      ensures ContentLengths(headers) == [Strip(headers[i].value)]
    {
      OnlyLengthFound(headers, i);
    }
  }

  /** 400 for a repeated or malformed Content-Length, 413 for a declared length above the cap. */
  method DeclaredBodySizeError(headers: seq<Header>, maxBodyBytes: nat) returns (status: Option<int>)
    ensures var lengths := ContentLengths(headers);
            && (status == Some(400) <==> |lengths| > 1 || (|lengths| == 1 && !IsNumeral(lengths[0])))
            && (status == Some(413) <==> |lengths| == 1 && IsNumeral(lengths[0]) && Value(lengths[0]) > maxBodyBytes)
            && status in {None, Some(400), Some(413)}
  {
    var contentLength: Option<string> := None;
    var i := 0;
    while i < |headers|
      invariant 0 <= i <= |headers|
      invariant ContentLengths(headers[..i]) == if contentLength.Some? then [contentLength.value] else []
    {
      assert headers[..i + 1][..i] == headers[..i];
      if Lower(headers[i].name) == "content-length" {
        if contentLength.Some? {
          MoreContentLengths(headers, i + 1);
          return Some(400);
        }
        contentLength := Some(Strip(headers[i].value));
      }
      i := i + 1;
    }
    assert headers[..i] == headers;
    if contentLength.None? {
      return None;
    }
    var digits := contentLength.value;
    if !IsNumeral(digits) {
      return Some(400);
    }
    ExceedsTextIsNumeric(digits, maxBodyBytes);
    status := if ExceedsText(Normalized(digits), Text(maxBodyBytes)) then Some(413) else None;
  }

  lemma {:induction false} MoreContentLengths(headers: seq<Header>, n: nat)
    requires n <= |headers|
    ensures |ContentLengths(headers[..n])| <= |ContentLengths(headers)|
  {
    if n < |headers| {
      MoreContentLengths(headers[..|headers| - 1], n);
      assert headers[..|headers| - 1][..n] == headers[..n];
    } else {
      assert headers[..n] == headers;
    }
  }

  // ---------------------------------------------------------------------------------------------
  // The message channel
  // ---------------------------------------------------------------------------------------------

  /** An incoming ASGI message; absent fields take the protocol's defaults. */
  datatype Message =
    | Request(body: Option<Bytes>, moreBody: Option<bool>)
    | Disconnect
    | Other

  function Chunk(m: Message): Bytes
    requires m.Request?
  {
    if m.body.Some? then m.body.value else []
  }

  predicate More(m: Message)
    requires m.Request?
  {
    m.moreBody == Some(true)
  }

  /** What the server will hand over. `None` stands for a wait that does not end. */
  class Channel {
    var pending: seq<Message>

    constructor (pending: seq<Message>)
      ensures this.pending == pending
    {
      this.pending := pending;
    }

    method Receive() returns (m: Option<Message>)
      modifies this
      ensures if old(pending) == [] then m == None && pending == []
              else m == Some(old(pending)[0]) && pending == old(pending)[1..]
    {
      if pending == [] {
        return None;
      }
      m := Some(pending[0]);
      pending := pending[1..];
    }
  }

  /** The channel downstream reads: the admitted message once, then the original channel. */
  class AdmittedChannel {
    var admitted: Option<Message>
    const inner: Channel

    ghost function Upcoming(): seq<Message>
      reads this, inner
    {
      (if admitted.Some? then [admitted.value] else []) + inner.pending
    }

    constructor (message: Message, inner: Channel)
      ensures this.inner == inner && Upcoming() == [message] + inner.pending
    {
      this.admitted := Some(message);
      this.inner := inner;
    }

    method Receive() returns (m: Option<Message>)
      modifies this, inner
      ensures if old(Upcoming()) == [] then m == None && Upcoming() == []
              else m == Some(old(Upcoming())[0]) && Upcoming() == old(Upcoming())[1..]
    {
      if admitted.Some? {
        m := admitted;
        admitted := None;
        return;
      }
      m := inner.Receive();
    }
  }

  // ---------------------------------------------------------------------------------------------
  // Admission of the real body
  // ---------------------------------------------------------------------------------------------

  datatype Admission =
    | Admitted(message: Message)
    | TooLarge
    | UnexpectedMessage
    | StillWaiting

  /** The bytes carried by a sequence of body messages. */
  function Body(messages: seq<Message>): Bytes {
    if messages == [] then [] else
      var last := messages[|messages| - 1];
      Body(messages[..|messages| - 1]) + if last.Request? then Chunk(last) else []
  }

  /** The first `n` messages belong to an upload still under way and within the cap. */
  ghost predicate Uploading(messages: seq<Message>, cap: nat, n: nat)
    requires n <= |messages|
  {
    forall i :: 0 <= i < n ==>
      messages[i].Request? && More(messages[i]) && |Body(messages[..i + 1])| <= cap
  }

  /** After reading `read` messages of the channel, admission ends this way. */
  ghost predicate EndsAs(messages: seq<Message>, cap: nat, read: nat, end: Admission) {
    && read <= |messages|
    && if end.StillWaiting? then read == |messages| && Uploading(messages, cap, read)
       else
         && read > 0 && Uploading(messages, cap, read - 1)
         && var last := messages[read - 1];
            match end
            case TooLarge => last.Request? && |Body(messages[..read])| > cap
            case UnexpectedMessage => last.Other?
            case Admitted(m) =>
              || (last.Disconnect? && m == Disconnect)
              || (last.Request? && !More(last) && |Body(messages[..read])| <= cap
                  && m == Request(Some(Body(messages[..read])), Some(false)))
            case StillWaiting => false
  }

  /** Every channel has exactly one ending. */
  lemma EndingUnique(messages: seq<Message>, cap: nat, r1: nat, e1: Admission, r2: nat, e2: Admission)
    requires EndsAs(messages, cap, r1, e1) && EndsAs(messages, cap, r2, e2)
    ensures r1 == r2 && e1 == e2
  {
  }

  /** A message without a body carries no bytes, and one that announces no more ends the upload. */
  lemma AbsentFields(body: Option<Bytes>, more: Option<bool>, rest: seq<Message>, cap: nat, read: nat, end: Admission)
    requires more != Some(true) && EndsAs([Request(body, more)] + rest, cap, read, end)
    ensures var bytes := match body case None => [] case Some(b) => b;
            && read == 1
            && end == if |bytes| <= cap then Admitted(Request(Some(bytes), Some(false))) else TooLarge
  {
    var all, message := [Request(body, more)] + rest, Request(body, more);
    assert all[..1] == [message] && [message][..0] == [];
    assert Body(all[..1]) == Chunk(message);
    var expected := if |Chunk(message)| <= cap then Admitted(Request(Some(Chunk(message)), Some(false))) else TooLarge;
    assert EndsAs(all, cap, 1, expected);
    EndingUnique(all, cap, read, end, 1, expected);
  }

  lemma UploadingLonger(messages: seq<Message>, cap: nat, n: nat)
    requires 0 < n <= |messages| && Uploading(messages, cap, n - 1)
    requires messages[n - 1].Request? && More(messages[n - 1]) && |Body(messages[..n])| <= cap
    ensures Uploading(messages, cap, n)
  {
  }

  method AdmitBody(channel: Channel, maxBodyBytes: nat) returns (end: Admission, ghost read: nat)
    modifies channel
    ensures EndsAs(old(channel.pending), maxBodyBytes, read, end)
    ensures channel.pending == old(channel.pending)[read..]
  {
    ghost var all := channel.pending;
    var body: Bytes := [];
    read := 0;
    while true
      invariant read <= |all| && channel.pending == all[read..]
      invariant body == Body(all[..read]) && |body| <= maxBodyBytes
      invariant Uploading(all, maxBodyBytes, read)
      decreases |channel.pending|
    {
      var next := channel.Receive();
      if next.None? {
        return StillWaiting, read;
      }
      var message := next.value;
      read := read + 1;
      assert message == all[read - 1] && all[..read][..read - 1] == all[..read - 1];
      if message.Disconnect? {
        return Admitted(Disconnect), read;
      }
      if !message.Request? {
        return UnexpectedMessage, read;
      }
      var chunk := Chunk(message);
      if |chunk| > maxBodyBytes - |body| {
        return TooLarge, read;
      }
      body := body + chunk;
      if !More(message) {
        return Admitted(Request(Some(body), Some(false))), read;
      }
      UploadingLonger(all, maxBodyBytes, read);
    }
  }

  // ---------------------------------------------------------------------------------------------
  // Framing
  // ---------------------------------------------------------------------------------------------

  function Concat(chunks: seq<Bytes>): Bytes {
    if chunks == [] then [] else Concat(chunks[..|chunks| - 1]) + chunks[|chunks| - 1]
  }

  /** A client's body split into the given chunks. */
  function Upload(chunks: seq<Bytes>): seq<Message> {
    seq(|chunks|, i requires 0 <= i < |chunks| => Request(Some(chunks[i]), Some(i < |chunks| - 1)))
  }

  lemma {:induction false} UploadBody(chunks: seq<Bytes>, rest: seq<Message>, n: nat)
    requires n <= |chunks|
    ensures Body((Upload(chunks) + rest)[..n]) == Concat(chunks[..n])
  {
    if n > 0 {
      UploadBody(chunks, rest, n - 1);
      var all := Upload(chunks) + rest;
      assert all[..n][..n - 1] == all[..n - 1];
      assert chunks[..n][..n - 1] == chunks[..n - 1];
      assert all[n - 1] == Request(Some(chunks[n - 1]), Some(n - 1 < |chunks| - 1));
    }
  }

  lemma {:induction false} ConcatGrows(chunks: seq<Bytes>, n: nat)
    requires n <= |chunks|
    ensures |Concat(chunks[..n])| <= |Concat(chunks)|
  {
    if n < |chunks| {
      ConcatGrows(chunks[..|chunks| - 1], n);
      assert chunks[..|chunks| - 1][..n] == chunks[..n];
    } else {
      assert chunks[..n] == chunks;
    }
  }

  lemma {:induction false} FirstPrefixOver(chunks: seq<Bytes>, cap: nat, n: nat) returns (r: nat)
    requires n <= |chunks| && cap < |Concat(chunks)|
    requires forall i :: 0 <= i <= n ==> |Concat(chunks[..i])| <= cap
    ensures n < r <= |chunks| && |Concat(chunks[..r])| > cap
    ensures forall i :: 0 <= i < r ==> |Concat(chunks[..i])| <= cap
    decreases |chunks| - n
  {
    assert chunks[..|chunks|] == chunks;
    if |Concat(chunks[..n + 1])| > cap {
      r := n + 1;
    } else {
      r := FirstPrefixOver(chunks, cap, n + 1);
    }
  }

  /** What happens to a complete upload: the whole body within the cap, in one message, or 413 after
  reading exactly up to the first prefix over the cap. */
  lemma UploadEnding(chunks: seq<Bytes>, rest: seq<Message>, cap: nat, read: nat, end: Admission)
    requires chunks != [] && EndsAs(Upload(chunks) + rest, cap, read, end)
    ensures var body := Concat(chunks);
            if |body| <= cap then end == Admitted(Request(Some(body), Some(false))) && read == |chunks|
            else
              && end == TooLarge
              && 0 < read <= |chunks|
              && |Concat(chunks[..read])| > cap && |Concat(chunks[..read - 1])| <= cap
  {
    var all := Upload(chunks) + rest;
    if |Concat(chunks)| <= cap {
      UploadFits(chunks, rest, cap);
      EndingUnique(all, cap, read, end, |chunks|, Admitted(Request(Some(Concat(chunks)), Some(false))));
    } else {
      assert chunks[..0] == [];
      var r := FirstPrefixOver(chunks, cap, 0);
      UploadOver(chunks, rest, cap, r);
      EndingUnique(all, cap, read, end, r, TooLarge);
    }
  }

  /** While its prefixes stay within the cap, an upload is under way. */
  lemma UploadUnderWay(chunks: seq<Bytes>, rest: seq<Message>, cap: nat, n: nat)
    requires n < |chunks| && forall i :: 0 <= i <= n ==> |Concat(chunks[..i])| <= cap
    ensures Uploading(Upload(chunks) + rest, cap, n)
  {
    var all := Upload(chunks) + rest;
    forall i | 0 <= i < n ensures all[i].Request? && More(all[i]) && |Body(all[..i + 1])| <= cap {
      UploadBody(chunks, rest, i + 1);
      assert all[i] == Request(Some(chunks[i]), Some(i < |chunks| - 1));
    }
  }

  lemma UploadFits(chunks: seq<Bytes>, rest: seq<Message>, cap: nat)
    requires chunks != [] && |Concat(chunks)| <= cap
    ensures EndsAs(Upload(chunks) + rest, cap, |chunks|, Admitted(Request(Some(Concat(chunks)), Some(false))))
  {
    var all, n := Upload(chunks) + rest, |chunks|;
    forall i | 0 <= i <= n ensures |Concat(chunks[..i])| <= cap { ConcatGrows(chunks, i); }
    UploadUnderWay(chunks, rest, cap, n - 1);
    UploadBody(chunks, rest, n);
    assert chunks[..n] == chunks && all[n - 1] == Request(Some(chunks[n - 1]), Some(false));
  }

  lemma UploadOver(chunks: seq<Bytes>, rest: seq<Message>, cap: nat, r: nat)
    requires 0 < r <= |chunks| && |Concat(chunks[..r])| > cap
    requires forall i :: 0 <= i < r ==> |Concat(chunks[..i])| <= cap
    ensures EndsAs(Upload(chunks) + rest, cap, r, TooLarge)
  {
    var all := Upload(chunks) + rest;
    UploadUnderWay(chunks, rest, cap, r - 1);
    UploadBody(chunks, rest, r);
    assert all[r - 1] == Request(Some(chunks[r - 1]), Some(r - 1 < |chunks| - 1));
  }

  /** Framing independence: how a body is cut into messages, and what follows it on the channel, does
  not change the ending. */
  lemma FramingIndependent(a: seq<Bytes>, b: seq<Bytes>, restA: seq<Message>, restB: seq<Message>, cap: nat,
                           readA: nat, readB: nat, endA: Admission, endB: Admission)
    requires a != [] && b != [] && Concat(a) == Concat(b)
    requires EndsAs(Upload(a) + restA, cap, readA, endA) && EndsAs(Upload(b) + restB, cap, readB, endB)
    ensures endA == endB
  {
    UploadEnding(a, restA, cap, readA, endA);
    UploadEnding(b, restB, cap, readB, endB);
  }

  // ---------------------------------------------------------------------------------------------
  // The middleware
  // ---------------------------------------------------------------------------------------------

  datatype Scope = Scope(isHttp: bool, path: string, method_: string, client: Option<string>, headers: seq<Header>)

  /** Which way a request left the middleware. */
  datatype Passage =
    | CalledApp                                   // the wrapped application, on the original channel
    | CalledAppWith(receive: AdmittedChannel)     // the wrapped application, on the admitted channel
    | Responded(status: int)
    | Raised
    | Waiting

  predicate IsRoutePost(scope: Scope) {
    scope.isHttp && scope.path == "/route" && scope.method_ == "POST"
  }

  function IpKey(scope: Scope): string {
    "ip:" + if scope.client.Some? then scope.client.value else "unknown"
  }

  /** Clients share a budget exactly when their addresses are equal; a missing one counts as "unknown". */
  lemma IpKeysExactly(a: Scope, b: Scope)
    ensures IpKey(a) == IpKey(b) <==>
              || a.client == b.client
              || (a.client.None? && b.client == Some("unknown"))
              || (b.client.None? && a.client == Some("unknown"))
    ensures a.client.Some? ==> IpKey(a) == ['i', 'p', ':'] + a.client.value
  {
    assert IpKey(a)[3..] == (if a.client.Some? then a.client.value else "unknown");
    assert IpKey(b)[3..] == (if b.client.Some? then b.client.value else "unknown");
  }

  /** The address limit is consulted once, first, and only for a route request; a rejected or foreign
  request leaves the channel unread. */
  method HandleRequest(scope: Scope, channel: Channel, limiter: RateLimiter.InMemoryRateLimiter, now: real,
                       maxBodyBytes: nat)
    returns (passage: Passage, ghost read: nat)
    requires limiter.Valid()
    modifies channel, limiter
    ensures limiter.Valid()
    ensures limiter.history ==
              old(limiter.history) + if IsRoutePost(scope) then [RateLimiter.Call(IpKey(scope), now)] else []
    ensures read <= |old(channel.pending)| && channel.pending == old(channel.pending)[read..]
    ensures var admitted := IsRoutePost(scope) ==>
              RateLimiter.Admits(limiter.config, old(limiter.history), RateLimiter.Call(IpKey(scope), now));
            var lengths := ContentLengths(scope.headers);
            var malformed := |lengths| > 1 || (|lengths| == 1 && !IsNumeral(lengths[0]));
            var declaredTooLarge := |lengths| == 1 && IsNumeral(lengths[0]) && Value(lengths[0]) > maxBodyBytes;
            if !scope.isHttp then passage == CalledApp && read == 0
            else if !admitted then passage == Responded(429) && read == 0
            else if malformed then passage == Responded(400) && read == 0
            else if declaredTooLarge then passage == Responded(413) && read == 0
            else if !IsRoutePost(scope) then passage == CalledApp && read == 0
            else match passage
              case CalledAppWith(receive) =>
                exists m :: EndsAs(old(channel.pending), maxBodyBytes, read, Admitted(m))
                            && receive.Upcoming() == [m] + old(channel.pending)[read..]
              case Responded(status) => status == 413 && EndsAs(old(channel.pending), maxBodyBytes, read, TooLarge)
              case Raised => EndsAs(old(channel.pending), maxBodyBytes, read, UnexpectedMessage)
              case Waiting => EndsAs(old(channel.pending), maxBodyBytes, read, StillWaiting)
              case CalledApp => false
  {
    read := 0;
    if !scope.isHttp {
      return CalledApp, 0;
    }
    var isRoutePost := scope.path == "/route" && scope.method_ == "POST";
    if isRoutePost {
      var ipAllowed := limiter.Allow(IpKey(scope), now);
      if !ipAllowed {
        return Responded(429), 0;
      }
    }
    var declared := DeclaredBodySizeError(scope.headers, maxBodyBytes);
    if declared.Some? {
      return Responded(declared.value), 0;
    }
    if !isRoutePost {
      return CalledApp, 0;
    }
    var end;
    end, read := AdmitBody(channel, maxBodyBytes);
    match end
    case TooLarge => passage := Responded(413);
    case UnexpectedMessage => passage := Raised;
    case StillWaiting => passage := Waiting;
    case Admitted(m) =>
      var receive := new AdmittedChannel(m, channel);
      assert EndsAs(old(channel.pending), maxBodyBytes, read, Admitted(m))
             && receive.Upcoming() == [m] + old(channel.pending)[read..];
      passage := CalledAppWith(receive);
  }
}
