/** Packets: a printed header followed by a payload, split again by re-printing the parsed header. */
module Framing {
  import opened Common
  import opened Json
  import opened TokenerSpec
  import opened Eating
  import opened RoundTrip
  import opened DepthLimit
  import opened Grammar
  import opened GrammarRuns
  import opened GrammarTokens
  import opened GrammarValues

  const MAX_PAYLOAD_SIZE := 4096

  datatype Message = Message(header: Json, payload: string, payloadLength: int)

  /** The bytes `kademSendMessage` hands to sendto, or None when the payload is too big to be sent. */
  function Assemble(header: Json, payload: string): Option<string> {
    if |payload| > 0 then
      if |payload| > MAX_PAYLOAD_SIZE then None else Some(Print(header) + payload)
    else Some(Print(header))
  }

  /** `kademUdpToMessage` on a receive buffer of which `length` bytes are the packet; the bytes after
      them are left from earlier packets. None: the header did not parse, and C goes on with an
      error code in place of a pointer. */
  function Unpack(buffer: string, length: nat): Option<Message>
    requires length <= |buffer|
  {
    match Parse(buffer)
    case Failed(_) => None
    case Ok(header) =>
      var n := |Print(header)|;
      if length - n > 0
      then Some(Message(header, buffer[n..length], length - n))
      else Some(Message(header, "", length - n))
  }

  /** A payload is sent if and only if it has at most 4096 bytes. */
  lemma SentIff(header: Json, payload: string)
    ensures Assemble(header, payload).Some? <==> |payload| <= 4096
    ensures Assemble(header, payload).Some? ==> Assemble(header, payload).value == Print(header) + payload
  {
    hide Print;
    if payload == "" {
      assert Print(header) + payload == Print(header);
    }
  }

  // ----- What may follow the header

  /** Whether the bytes after the header let the parser stop with success: blanks and comments, then
      anything, or a NUL inside a comment. A slash that opens no comment, or input that ends inside
      one, fails. */
  predicate TailOk(t: string) {
    Blanks(t).Past? || Blanks(t).NulInside?
  }

  // ----- The round trip

  /** A printed object is read to its closing brace whatever follows. */
  lemma RunHeader(ms: seq<Member>, s: string) returns (h: Config)
    requires Printable(Obj(ms)) && Levels(Obj(ms)) < MAX_DEPTH && At(s, 0, Print(Obj(ms)))
    ensures Complete(h, [], Obj(ms)) && Run(Init(), s, 0) == Run(h, s, |Print(Obj(ms))|)
  {
    hide Feed, Step, Print, Run;
    h := EatObject(Init(), ms);
    RunOver(Init(), s, 0, Print(Obj(ms)), h);
  }

  /** What follows a printed header decides whether the parse succeeds, and with which error it does not, and never
      which value it gives. */
  lemma ParseHeader(ms: seq<Member>, tail: string)
    requires Printable(Obj(ms)) && Levels(Obj(ms)) < MAX_DEPTH
    ensures Parse(Print(Obj(ms)) + tail)
         == match Blanks(tail)
            case Past(_) => Ok(Obj(ms))
            case NulInside(_) => Ok(Obj(ms))
            case RunsOut => Failed(Continue)
            case NoComment(_) => Failed(CommentError)
  {
    hide Feed, Step, Print, Run, RunOn, Blanks;
    var text := Print(Obj(ms));
    var s := text + tail;
    assert s[0..|text|] == text && s[|text|..] == tail;
    var h := RunHeader(ms, s);
    RunBottom(h, Obj(ms), tail);
    RunIsRunOn(h, s, |text|);
  }

  /** Splitting the assembled bytes gives back what went into them, for every object header the parser
      can read back, every payload that may be sent, and whatever stands behind them in memory, if and
      only if the bytes after the header do not look like a comment that goes wrong. */
  lemma FramingRoundTrip(ms: seq<Member>, payload: string, stale: string)
    requires Printable(Obj(ms)) && Levels(Obj(ms)) < MAX_DEPTH
    requires |payload| <= MAX_PAYLOAD_SIZE
    ensures
      var packet := Assemble(Obj(ms), payload);
      packet.Some? &&
      Unpack(packet.value + stale, |packet.value|)
        == if TailOk(payload + stale) then Some(Message(Obj(ms), payload, |payload|)) else None
  {
    hide Parse, Blanks, Print;
    var text := Print(Obj(ms));
    var packet := text + payload;
    if payload == "" { assert packet == text; }
    ParseHeader(ms, payload + stale);
    assert packet + stale == text + (payload + stale);
    assert (packet + stale)[|text|..|packet|] == payload;
  }

  /** In particular when the payload starts with neither white space nor a slash. */
  lemma PlainPayload(ms: seq<Member>, payload: string, stale: string)
    requires Printable(Obj(ms)) && Levels(Obj(ms)) < MAX_DEPTH
    requires 0 < |payload| <= MAX_PAYLOAD_SIZE && !IsSpace(payload[0]) && payload[0] != '/'
    ensures Unpack(Assemble(Obj(ms), payload).value + stale, |Assemble(Obj(ms), payload).value|)
         == Some(Message(Obj(ms), payload, |payload|))
  {
    FramingRoundTrip(ms, payload, stale);
    assert (payload + stale)[0] == payload[0];
  }

  /** The input: a payload that begins with a slash and no comment. */
  lemma SlashPayload(ms: seq<Member>, stale: string)
    requires Printable(Obj(ms)) && Levels(Obj(ms)) < MAX_DEPTH
    ensures Unpack(Assemble(Obj(ms), "/x").value + stale, |Assemble(Obj(ms), "/x").value|) == None
  {
    hide Parse, Print, Unpack;
    FramingRoundTrip(ms, "/x", stale);
    assert ("/x" + stale)[0] == '/' && ("/x" + stale)[1] == 'x';
  }

  function Stars(n: nat): string {
    if n == 0 then "" else "*" + Stars(n - 1)
  }

  /** A run of stars before a slash closes a block comment only when the run is odd: after an even
      run the comment goes on, as in one that ends with two stars and a slash. */
  lemma {:induction false} StarsClose(n: nat, rest: string)
    ensures InBlock(Stars(n) + ("/" + rest), false)
         == if n % 2 == 1 then Blanks(rest) else InBlock(rest, false)
    decreases n
  {
    var t := Stars(n) + ("/" + rest);
    if n == 0 {
      assert t == "/" + rest;
      assert t[1..] == rest;
    } else if n == 1 {
      assert Stars(1) == "*" + "";
      assert t == "*/" + rest;
      assert t[1..] == "/" + rest && t[1..][1..] == rest;
    } else {
      var u := Stars(n - 2) + ("/" + rest);
      assert Stars(n) == "*" + ("*" + Stars(n - 2));
      assert t[1..] == "*" + u && t[1..][1..] == u;
      StarsClose(n - 2, rest);
    }
  }

  /** The inputs: a comment that ends with a star and a slash is skipped, one that ends with two stars is an error. */
  lemma TwoStars(ms: seq<Member>)
    requires Printable(Obj(ms)) && Levels(Obj(ms)) < MAX_DEPTH
    ensures Parse(Print(Obj(ms)) + "/**/") == Ok(Obj(ms))
    ensures Parse(Print(Obj(ms)) + "/***/").Failed?
  {
    hide Parse, Print;
    assert Stars(1) == "*" + "" && Stars(2) == "*" + Stars(1);
    assert "/**/"[2..] == Stars(1) + ("/" + "") && "/***/"[2..] == Stars(2) + ("/" + "");
    StarsClose(1, "");
    StarsClose(2, "");
    ParseHeader(ms, "/**/");
    ParseHeader(ms, "/***/");
  }

  // ----- Through the receive buffer

  const RECEIVE_SIZE := MAX_PAYLOAD_SIZE + 100

  /** recvfrom: the packet, as far as it fits, over the start of the buffer; memory is the buffer and what lies
      behind it. With it, the number of bytes received. */
  function Receive(memory: string, packet: string): (string, nat)
    requires RECEIVE_SIZE <= |memory|
  {
    var n := Min(|packet|, RECEIVE_SIZE);
    (packet[..n] + memory[n..], n)
  }

  function Received(memory: string, packet: string): Option<Message>
    requires RECEIVE_SIZE <= |memory|
  {
    var r := Receive(memory, packet);
    Unpack(r.0, r.1)
  }

  /** What was sent is what is received if and only if the packet fits the receive buffer and the bytes after the
      header do not look like a comment that goes wrong. */
  lemma ReceivedIff(ms: seq<Member>, payload: string, memory: string)
    requires Printable(Obj(ms)) && Levels(Obj(ms)) < MAX_DEPTH
    requires |payload| <= MAX_PAYLOAD_SIZE && RECEIVE_SIZE <= |memory|
    ensures Assemble(Obj(ms), payload).Some?
    ensures var packet := Assemble(Obj(ms), payload).value;
            && |packet| == |Print(Obj(ms))| + |payload|
            && (Received(memory, packet) == Some(Message(Obj(ms), payload, |payload|))
                <==> |packet| <= RECEIVE_SIZE && TailOk(payload + memory[|packet|..]))
  {
    hide Parse, TailOk, Print;
    var packet := Assemble(Obj(ms), payload).value;
    if |packet| <= RECEIVE_SIZE {
      FramingRoundTrip(ms, payload, memory[|packet|..]);
      assert packet[..|packet|] == packet;
    } else {
      CutIsShort(packet[..RECEIVE_SIZE] + memory[RECEIVE_SIZE..], RECEIVE_SIZE);
    }
  }

  /** The payload found is what is left of the bytes received. */
  lemma CutIsShort(buffer: string, length: nat)
    requires length <= |buffer|
    ensures var m := Unpack(buffer, length);
            m.Some? ==> m.value.payloadLength == length - |Print(m.value.header)|
  {
    hide Parse, Print;
  }

  lemma {:induction false} EscapeGrows(s: string)
    ensures |s| <= |Escape(s)|
  {
    if s != "" {
      EscapeGrows(s[1..]);
    }
  }

  /** The header of a put is longer than a hundred bytes, and then the largest payload never arrives whole. */
  lemma LargestPayloadIsCut(ms: seq<Member>, payload: string, memory: string)
    requires Printable(Obj(ms)) && Levels(Obj(ms)) < MAX_DEPTH && |Print(Obj(ms))| > 100
    requires |payload| == MAX_PAYLOAD_SIZE && RECEIVE_SIZE <= |memory|
    ensures Received(memory, Assemble(Obj(ms), payload).value) != Some(Message(Obj(ms), payload, |payload|))
  {
    hide Print, Received, TailOk;
    ReceivedIff(ms, payload, memory);
  }

  /** The input: one member whose value has a hundred characters. */
  lemma LongHeader(memory: string, payload: string)
    requires |payload| == MAX_PAYLOAD_SIZE && RECEIVE_SIZE <= |memory|
    ensures var ms := [Member("t", Str(Stars(100)))];
            && Printable(Obj(ms)) && Levels(Obj(ms)) < MAX_DEPTH
            && Received(memory, Assemble(Obj(ms), payload).value) != Some(Message(Obj(ms), payload, |payload|))
  {
    hide Stars, Received;
    var ms := [Member("t", Str(Stars(100)))];
    StarsText(100);
    OneMember("t", Stars(100));
    LargestPayloadIsCut(ms, payload, memory);
  }

  lemma {:induction false} StarsText(n: nat)
    ensures |Stars(n)| == n && NUL !in Stars(n)
  {
    if n > 0 {
      StarsText(n - 1);
    }
  }

  lemma OneMember(key: string, s: string)
    requires NUL !in s && NUL !in key
    ensures var ms := [Member(key, Str(s))];
            Printable(Obj(ms)) && Levels(Obj(ms)) < MAX_DEPTH && |Print(Obj(ms))| > |s|
  {
    hide Escape, PrintName, Comma;
    EscapeGrows(s);
    var m := Member(key, Str(s));
    var ms := [m];
    assert ms[1..] == [] && ms[0] == m && m.val == Str(s);
    assert WellFormed(m.val) && !HasDouble(m.val) && Levels(m.val) == 0;
    assert LevelsMembers(ms) == Max(1 + Levels(ms[0].val), LevelsMembers([]));
    assert Levels(Obj(ms)) == LevelsMembers(ms);
    assert |Print(m.val)| == |Escape(s)| + 2;
    assert PrintMembers(ms, true) == Comma(true) + (" " + (PrintName(key) + (Print(ms[0].val) + PrintMembers([], false))));
    assert Print(Obj(ms)) == "{" + PrintMembers(ms, true);
  }
}
