/**
 The handshake response: where it ends, whether it accepts the upgrade, and the search for a header in it. Texts are
 bytes, as recv delivers them.
 */
module Handshake {
  import opened Bytes
  import opened Incremental
  import Base64
  import Sha1

  const CRLF: seq<byte> := [13, 10]
  const CRLF_CRLF: seq<byte> := [13, 10, 13, 10]
  const COLON: seq<byte> := [58]
  const SPACE: seq<byte> := [32]

  // ----- Searching -----

  predicate Occurs(s: seq<byte>, pattern: seq<byte>, p: nat) {
    p + |pattern| <= |s| && s[p..p + |pattern|] == pattern
  }

  /** The first place at or after i where the pattern occurs; -1 when it occurs nowhere from i on. */
  function Find(s: seq<byte>, pattern: seq<byte>, i: nat): (p: int)
    requires pattern != []
    ensures p == -1 || (i <= p && Occurs(s, pattern, p))
    ensures forall j: nat :: i <= j && (p == -1 || j < p) ==> !Occurs(s, pattern, j)
    decreases |s| - i
  {
    if i + |pattern| > |s| then -1 else if Occurs(s, pattern, i) then i else Find(s, pattern, i + 1)
  }

  /** The first occurrence is where Find says. */
  lemma FoundAt(s: seq<byte>, pattern: seq<byte>, i: nat, p: nat)
    requires pattern != [] && i <= p && Occurs(s, pattern, p)
    requires forall j: nat :: i <= j < p ==> !Occurs(s, pattern, j)
    ensures Find(s, pattern, i) == p
  {
    hide Occurs;
  }

  lemma StillOccurs(s: seq<byte>, more: seq<byte>, pattern: seq<byte>, p: nat)
    requires p + |pattern| <= |s|
    ensures Occurs(s + more, pattern, p) <==> Occurs(s, pattern, p)
  {
    assert (s + more)[p..p + |pattern|] == s[p..p + |pattern|];
  }

  /** Bytes that arrive later do not move the first occurrence. */
  lemma FindStable(s: seq<byte>, more: seq<byte>, pattern: seq<byte>)
    requires pattern != [] && Find(s, pattern, 0) >= 0
    ensures Find(s + more, pattern, 0) == Find(s, pattern, 0)
  {
    var p := Find(s, pattern, 0);
    StillOccurs(s, more, pattern, p);
    forall j: nat | j < p ensures !Occurs(s + more, pattern, j) {
      StillOccurs(s, more, pattern, j);
    }
    FoundAt(s + more, pattern, 0, p);
  }

  lemma OccursInRest(s: seq<byte>, pattern: seq<byte>, from: nat, p: nat)
    requires from <= |s|
    ensures Occurs(s[from..], pattern, p) <==> Occurs(s, pattern, from + p)
  {
    if from + p + |pattern| <= |s| {
      assert s[from..][p..p + |pattern|] == s[from + p..from + p + |pattern|];
    }
  }

  /** Searching from an offset is searching what follows it. */
  lemma FindFrom(s: seq<byte>, pattern: seq<byte>, from: nat)
    requires pattern != [] && from <= |s|
    ensures var p := Find(s[from..], pattern, 0);
            Find(s, pattern, from) == if p == -1 then -1 else from + p
  {
    hide Occurs;
    var p := Find(s[from..], pattern, 0);
    forall j: nat | from <= j && (p == -1 || j < from + p) ensures !Occurs(s, pattern, j) {
      OccursInRest(s, pattern, from, j - from);
    }
    if p >= 0 {
      OccursInRest(s, pattern, from, p);
      FoundAt(s, pattern, from, from + p);
    }
  }

  /** Where nothing occurs before an offset, the search may start there. */
  lemma SkipTo(s: seq<byte>, pattern: seq<byte>, from: nat)
    requires pattern != [] && from <= |s| && forall j: nat :: j < from ==> !Occurs(s, pattern, j)
    ensures Find(s, pattern, 0) == Find(s, pattern, from)
  {
    hide Occurs;
    var p := Find(s, pattern, from);
    if p >= 0 {
      FoundAt(s, pattern, 0, p);
    }
  }

  // ----- Where the response ends -----

  /** What the handshake has read, and the reads it has left for the receive loop. */
  datatype Response = Broken | Response(bytes: seq<byte>, later: seq<seq<byte>>)

  function ReadResponse(response: seq<byte>, chunks: seq<seq<byte>>): Response
    decreases |chunks|
  {
    if Find(response, CRLF_CRLF, 0) >= 0 then Response(response, chunks)
    else if chunks == [] || chunks[0] == [] then Broken
    else ReadResponse(response + chunks[0], chunks[1..])
  }

  /** The handshake fails for want of bytes exactly when no terminator ever arrives; otherwise it loses none. */
  lemma {:induction false} ResponseKeepsStream(response: seq<byte>, chunks: seq<seq<byte>>)
    ensures var r := ReadResponse(response, chunks);
            && (r.Response? <==> Find(response + Arrived(chunks), CRLF_CRLF, 0) >= 0)
            && (r.Response? ==> Find(r.bytes, CRLF_CRLF, 0) >= 0 && r.bytes + Arrived(r.later) == response + Arrived(chunks))
    decreases |chunks|
  {
    hide Find;
    if Find(response, CRLF_CRLF, 0) >= 0 {
      FindStable(response, Arrived(chunks), CRLF_CRLF);
    } else if chunks == [] || chunks[0] == [] {
      assert response + [] == response;
    } else {
      ResponseKeepsStream(response + chunks[0], chunks[1..]);
      Associative(response, chunks[0], Arrived(chunks[1..]));
    }
  }

  /** What follows the terminator. */
  function Leftover(response: seq<byte>): seq<byte>
    requires Find(response, CRLF_CRLF, 0) >= 0
  {
    response[Find(response, CRLF_CRLF, 0) + 4..]
  }

  lemma LeftoverThenMore(s: seq<byte>, more: seq<byte>)
    requires Find(s, CRLF_CRLF, 0) >= 0
    ensures Find(s + more, CRLF_CRLF, 0) == Find(s, CRLF_CRLF, 0) && Leftover(s + more) == Leftover(s) + more
  {
    hide Find;
    FindStable(s, more, CRLF_CRLF);
  }

  // ----- The status line -----

  function Slice(s: seq<byte>, from: nat, n: nat): seq<byte> {
    if from > |s| then [] else if from + n > |s| then s[from..] else s[from..from + n]
  }

  /** Whether the response switches protocols: it starts with HTTP/ and its first space is followed by 101. */
  predicate Switches(response: seq<byte>) {
    Slice(response, 0, 5) == Chars("HTTP/")
    && var p := Find(response, SPACE, 0);
       p >= 0 && Slice(response, p + 1, 3) == Chars("101")
  }

  // ----- Headers -----

  function Lower(b: byte): byte {
    if 65 <= b <= 90 then b + 32 else b
  }

  function LowerAll(s: seq<byte>): (t: seq<byte>)
    ensures |t| == |s|
  {
    seq(|s|, i requires 0 <= i < |s| => Lower(s[i]))
  }

  predicate Blank(b: byte) {
    b == 32 || b == 9
  }

  function TrimFront(s: seq<byte>): seq<byte> {
    if s != [] && Blank(s[0]) then TrimFront(s[1..]) else s
  }

  function TrimBack(s: seq<byte>): seq<byte> {
    if s != [] && (Blank(s[|s| - 1]) || s[|s| - 1] == 13) then TrimBack(s[..|s| - 1]) else s
  }

  /** A response line by line; an unterminated last line counts. */
  function Lines(s: seq<byte>): seq<seq<byte>>
    decreases |s|
  {
    if s == [] then []
    else
      var e := Find(s, CRLF, 0);
      if e == -1 then [s] else [s[..e]] + Lines(s[e + 2..])
  }

  /** Whether a line carries the header, in whatever case. */
  predicate Carries(line: seq<byte>, name: seq<byte>) {
    var colon := Find(line, COLON, 0);
    colon >= 0 && LowerAll(line[..colon]) == LowerAll(name)
  }

  function ValueOf(line: seq<byte>): seq<byte> {
    TrimBack(TrimFront(line[Find(line, COLON, 0) + 1..]))
  }

  /** The value in the first line that carries the header, or nothing. */
  function FirstValue(lines: seq<seq<byte>>, name: seq<byte>): seq<byte> {
    if lines == [] then []
    else if Carries(lines[0], name) then ValueOf(lines[0])
    else FirstValue(lines[1..], name)
  }

  method TrimValue(line: seq<byte>, colon: nat) returns (value: seq<byte>)
    requires colon < |line| && colon == Find(line, COLON, 0)
    ensures value == ValueOf(line)
  {
    value := line[colon + 1..];
    while value != [] && Blank(value[0])
      invariant TrimFront(value) == TrimFront(line[colon + 1..])
      decreases |value|
    {
      value := value[1..];
    }
    while value != [] && (Blank(value[|value| - 1]) || value[|value| - 1] == 13)
      invariant TrimBack(value) == ValueOf(line)
      decreases |value|
    {
      value := value[..|value| - 1];
    }
  }

  /** findHeaderValue: walks the response line by line to the first that carries the header. */
  method FindHeaderValue(response: seq<byte>, name: seq<byte>) returns (value: seq<byte>)
    ensures value == FirstValue(Lines(response), name)
  {
    hide Find, ValueOf, LowerAll;
    var pos := 0;
    while pos < |response|
      invariant pos <= |response|
      invariant FirstValue(Lines(response[pos..]), name) == FirstValue(Lines(response), name)
    {
      var lineEnd := Find(response, CRLF, pos);
      FindFrom(response, CRLF, pos);
      ghost var rest := response[pos..];
      var line := if lineEnd == -1 then response[pos..] else response[pos..lineEnd];
      assert line == Lines(rest)[0];
      var colon := Find(line, COLON, 0);
      if colon >= 0 && LowerAll(line[..colon]) == LowerAll(name) {
        value := TrimValue(line, colon);
        return;
      }
      if lineEnd == -1 {
        assert Lines(rest)[1..] == [];
        return [];
      }
      pos := lineEnd + 2;
    }
    value := [];
  }

  // ----- The accept key -----

  const MAGIC_GUID: string := "258EAFA5-E914-47DA-95CA-C5AB0DC85B11"
  const ACCEPT: string := "Sec-WebSocket-Accept"

  /** The value the server must echo for the nonce the client drew. */
  function ExpectedAccept(nonce: seq<byte>): string {
    Base64.Encode(Sha1.Digest(Chars(Base64.Encode(nonce) + MAGIC_GUID)))
  }

  /** The client goes on exactly with such a response. */
  predicate Accepts(nonce: seq<byte>, response: seq<byte>) {
    Switches(response) && FirstValue(Lines(response), Chars(ACCEPT)) == Chars(ExpectedAccept(nonce))
  }

  /** It is 28 characters ending in one '=', and decodes to the hash. */
  lemma AcceptShape(nonce: seq<byte>)
    ensures |ExpectedAccept(nonce)| == 28 && Base64.Padded(ExpectedAccept(nonce), 1)
    ensures Base64.Decode(ExpectedAccept(nonce))
         == Some(Sha1.Digest(Chars(Base64.Encode(nonce) + "258EAFA5-E914-47DA-95CA-C5AB0DC85B11")))
  {
    HashShape(Sha1.Digest(Chars(Base64.Encode(nonce) + MAGIC_GUID)));
    hide Chars, Base64.Encode, Base64.Decode, Base64.Padded, Sha1.Digest;
  }

  lemma HashShape(digest: seq<byte>)
    requires |digest| == 20
    ensures |Base64.Encode(digest)| == 28 && Base64.Padded(Base64.Encode(digest), 1)
    ensures Base64.Decode(Base64.Encode(digest)) == Some(digest)
  {
    hide Base64.Encode, Base64.Decode, Base64.Padded;
    Base64.EncodeShape(digest);
    Base64.DecodeEncode(digest);
  }

  method ComputeAccept(nonce: seq<byte>) returns (expected: string)
    ensures expected == ExpectedAccept(nonce)
  {
    var key := Base64.ComputeBase64(nonce);
    var digest := Sha1.ComputeSha1(Chars(key + MAGIC_GUID));
    expected := Base64.ComputeBase64(digest);
  }

  /** The checks connect makes once the terminator is there. */
  method CheckResponse(nonce: seq<byte>, response: seq<byte>) returns (ok: bool)
    ensures ok == Accepts(nonce, response)
  {
    hide Find, Lines, FirstValue, Slice, ExpectedAccept;
    var statusSpace := Find(response, SPACE, 0);
    NoStatus(response);
    if Find(response, Chars("101"), 0) == -1 || statusSpace == -1 || Slice(response, 0, 5) != Chars("HTTP/") {
      return false;
    }
    if Slice(response, statusSpace + 1, 3) != Chars("101") {
      return false;
    }
    var accept := FindHeaderValue(response, Chars(ACCEPT));
    var expected := ComputeAccept(nonce);
    ok := accept == Chars(expected);
  }

  /** A status of 101 is an occurrence of 101, so the check for one is implied by the others. */
  lemma NoStatus(response: seq<byte>)
    ensures Find(response, Chars("101"), 0) == -1 ==> !Switches(response)
  {
    var p := Find(response, SPACE, 0);
    if p >= 0 && Slice(response, p + 1, 3) == Chars("101") {
      assert Occurs(response, Chars("101"), p + 1);
    }
  }

  // ----- A conforming server is accepted -----

  /** Lines as a server writes them. */
  function Written(lines: seq<seq<byte>>): seq<byte> {
    if lines == [] then [] else lines[0] + CRLF + Written(lines[1..])
  }

  /** A line with something on it and no line break in it. */
  predicate Plain(line: seq<byte>) {
    line != [] && Find(line, CRLF, 0) == -1
  }

  lemma LineEnds(line: seq<byte>, rest: seq<byte>)
    requires Plain(line)
    ensures Find(line + CRLF + rest, CRLF, 0) == |line|
  {
    var s := line + CRLF + rest;
    assert s[|line|..|line| + 2] == CRLF && s[|line|] == 13;
    forall j: nat | j < |line| ensures !Occurs(s, CRLF, j) {
      if j + 2 <= |line| {
        assert s == line + (CRLF + rest);
        StillOccurs(line, CRLF + rest, CRLF, j);
      } else {
        assert j + 1 == |line| && s[j..j + 2][1] == s[j + 1];
      }
    }
    FoundAt(s, CRLF, 0, |line|);
  }

  lemma FirstLine(line: seq<byte>, rest: seq<byte>)
    requires Plain(line)
    ensures Lines(line + CRLF + rest) == [line] + Lines(rest)
  {
    LineEnds(line, rest);
    hide Find;
    var s := line + CRLF + rest;
    assert s[..|line|] == line && s[|line| + 2..] == rest;
  }

  lemma {:induction false} WrittenLines(lines: seq<seq<byte>>, rest: seq<byte>)
    requires forall i :: 0 <= i < |lines| ==> Plain(lines[i])
    ensures Lines(Written(lines) + rest) == lines + Lines(rest)
  {
    hide Find, Plain, Lines;
    if lines == [] {
      assert Written(lines) + rest == rest && lines + Lines(rest) == Lines(rest);
    } else {
      var tail := Written(lines[1..]) + rest;
      WrittenLines(lines[1..], rest);
      FirstLine(lines[0], tail);
      assert Written(lines) + rest == lines[0] + CRLF + tail;
      Associative([lines[0]], lines[1..], Lines(rest));
      assert lines == [lines[0]] + lines[1..];
    }
  }

  lemma {:induction false} FirstValueSkips(before: seq<seq<byte>>, line: seq<byte>, more: seq<seq<byte>>, name: seq<byte>)
    requires Carries(line, name) && forall i :: 0 <= i < |before| ==> !Carries(before[i], name)
    ensures FirstValue(before + [line] + more, name) == ValueOf(line)
  {
    hide Carries, ValueOf;
    var all := before + [line] + more;
    if before != [] {
      FirstValueSkips(before[1..], line, more, name);
      assert all[1..] == before[1..] + [line] + more && all[0] == before[0];
    }
  }

  lemma SplitFirst(lines: seq<seq<byte>>, rest: seq<byte>)
    requires lines != []
    ensures Written(lines) + CRLF + rest == lines[0] + CRLF + (Written(lines[1..]) + CRLF + rest)
    ensures Written(lines) + CRLF + rest == Written(lines) + (CRLF + rest)
  {
    var w := Written(lines[1..]);
    assert Written(lines) == lines[0] + CRLF + w;
    assert (lines[0] + CRLF + w) + CRLF + rest == lines[0] + CRLF + (w + CRLF + rest);
  }

  /** The first empty line is the one the server wrote. */
  lemma {:induction false} Terminator(lines: seq<seq<byte>>, rest: seq<byte>)
    requires lines != [] && forall i :: 0 <= i < |lines| ==> Plain(lines[i])
    ensures |Written(lines)| >= 2 && Find(Written(lines) + CRLF + rest, CRLF_CRLF, 0) == |Written(lines)| - 2
  {
    hide Find, Plain, Occurs;
    var line, tail := lines[0], Written(lines[1..]) + CRLF + rest;
    var s := line + CRLF + tail;
    SplitFirst(lines, rest);
    NoneBefore(line, tail);
    if lines[1..] == [] {
      LastBreak(line, rest);
      assert tail == CRLF + rest;
      FoundAt(s, CRLF_CRLF, 0, |line|);
    } else {
      Terminator(lines[1..], rest);
      SplitFirst(lines[1..], rest);
      NotAtBreak(line, lines[1], Written(lines[1..][1..]) + CRLF + rest);
      assert s[|line| + 2..] == tail;
      SkipTo(s, CRLF_CRLF, |line| + 2);
      FindFrom(s, CRLF_CRLF, |line| + 2);
    }
  }

  lemma LastBreak(line: seq<byte>, rest: seq<byte>)
    ensures Occurs(line + CRLF + (CRLF + rest), CRLF_CRLF, |line|)
  {
    var s := line + CRLF + (CRLF + rest);
    assert s[|line|..|line| + 4] == CRLF_CRLF;
  }

  lemma NoneBefore(line: seq<byte>, tail: seq<byte>)
    requires Plain(line)
    ensures forall j: nat :: j < |line| ==> !Occurs(line + CRLF + tail, CRLF_CRLF, j)
  {
    var s := line + CRLF + tail;
    LineEnds(line, tail);
    forall j: nat | j < |line| ensures !Occurs(s, CRLF_CRLF, j) {
      assert !Occurs(s, CRLF, j);
      if j + 4 <= |s| {
        assert s[j..j + 2] == s[j..j + 4][..2];
      }
    }
  }

  lemma NotAtBreak(line: seq<byte>, next: seq<byte>, more: seq<byte>)
    requires Plain(line) && Plain(next)
    ensures forall j: nat :: j < |line| + 2 ==> !Occurs(line + CRLF + (next + CRLF + more), CRLF_CRLF, j)
  {
    var tail := next + CRLF + more;
    var s := line + CRLF + tail;
    NoneBefore(line, tail);
    LineEnds(next, more);
    assert !Occurs(tail, CRLF, 0);
    assert s[|line| + 1] == 10;
    assert s[|line| + 2..|line| + 4] == tail[..2];
    assert s[|line|..|line| + 4][2..] == s[|line| + 2..|line| + 4];
    assert s[|line| + 1..|line| + 5][0] == 10;
  }

  lemma SwitchesStays(line: seq<byte>, more: seq<byte>)
    requires Switches(line)
    ensures Switches(line + more)
  {
    SlicesFit(line);
    hide Find;
    FindStable(line, more, SPACE);
    var p := Find(line, SPACE, 0);
    assert (line + more)[0..5] == line[0..5] && (line + more)[p + 1..p + 4] == line[p + 1..p + 4];
  }

  /** Header lines of a 101 response in which line k is the first that carries the accept header, with the right value. */
  predicate Conforms(nonce: seq<byte>, lines: seq<seq<byte>>, k: nat) {
    && k < |lines| && (forall i :: 0 <= i < |lines| ==> Plain(lines[i]))
    && Switches(lines[0]) && Carries(lines[k], Chars(ACCEPT)) && ValueOf(lines[k]) == Chars(ExpectedAccept(nonce))
    && (forall i :: 0 <= i < k ==> !Carries(lines[i], Chars(ACCEPT)))
  }

  /**
   Any conforming response is accepted, whatever its other headers and wherever its reads are cut: a status line
   for 101, then lines of which the first that carries the accept header has the expected value, then an empty line.
   What the server pushed after it is the leftover.
   */
  lemma ConformingResponseIsAccepted(nonce: seq<byte>, lines: seq<seq<byte>>, k: nat, rest: seq<byte>)
    requires Conforms(nonce, lines, k)
    ensures var response := Written(lines) + CRLF + rest;
            && Find(response, CRLF_CRLF, 0) >= 0 && Leftover(response) == rest && Accepts(nonce, response)
  {
    hide Find, Carries, ValueOf, ExpectedAccept, Lines, Plain, FirstValue, Switches, Written;
    Terminator(lines, rest);
    LeftoverIs(Written(lines), rest);
    HeaderIsFound(lines, k, CRLF + rest, Chars(ACCEPT));
    SplitFirst(lines, rest);
    var tail := Written(lines[1..]) + CRLF + rest;
    Associative(lines[0], CRLF, tail);
    SwitchesStays(lines[0], CRLF + tail);
  }

  lemma LeftoverIs(written: seq<byte>, rest: seq<byte>)
    requires |written| >= 2 && Find(written + CRLF + rest, CRLF_CRLF, 0) == |written| - 2
    ensures Leftover(written + CRLF + rest) == rest
  {
    assert (written + CRLF + rest)[|written| + 2..] == rest;
  }

  lemma HeaderIsFound(lines: seq<seq<byte>>, k: nat, rest: seq<byte>, name: seq<byte>)
    requires k < |lines| && (forall i :: 0 <= i < |lines| ==> Plain(lines[i])) && Carries(lines[k], name)
    requires forall i :: 0 <= i < k ==> !Carries(lines[i], name)
    ensures FirstValue(Lines(Written(lines) + rest), name) == ValueOf(lines[k])
  {
    hide Find, Carries, ValueOf, Lines, Plain, FirstValue;
    WrittenLines(lines, rest);
    FirstValueSkips(lines[..k], lines[k], lines[k + 1..] + Lines(rest), name);
    assert lines + Lines(rest) == lines[..k] + [lines[k]] + (lines[k + 1..] + Lines(rest));
  }

  lemma SlicesFit(line: seq<byte>)
    requires Switches(line)
    ensures |line| >= 5 && Find(line, SPACE, 0) + 4 <= |line|
  {
  }

  /** Spaces and tabs around a value do not count, nor carriage returns after it, and a name matches in any case. */
  lemma ValueBetweenBlanks(name: seq<byte>, wanted: seq<byte>, front: seq<byte>, value: seq<byte>, back: seq<byte>)
    requires Find(name, COLON, 0) == -1 && LowerAll(name) == LowerAll(wanted)
    requires (forall i :: 0 <= i < |front| ==> front[i] in {32, 9}) && forall i :: 0 <= i < |back| ==> back[i] in {32, 9, 13}
    requires value != [] && value[0] !in {32, 9} && value[|value| - 1] !in {32, 9, 13}
    ensures var line := name + COLON + (front + value + back);
            Carries(line, wanted) && ValueOf(line) == value
  {
    var line, tail := name + COLON + (front + value + back), COLON + (front + value + back);
    assert line == name + tail;
    forall j: nat | j < |name| ensures !Occurs(line, COLON, j) {
      StillOccurs(name, tail, COLON, j);
    }
    assert line[|name|..|name| + 1] == COLON;
    FoundAt(line, COLON, 0, |name|);
    assert line[..|name|] == name && line[|name| + 1..] == front + value + back;
    hide Find, LowerAll;
    FrontTrimmed(front, value + back);
    Associative(front, value, back);
    BackTrimmed(value, back);
  }

  /** Names are compared without regard to the case of their letters, and of nothing else. */
  lemma LettersMatchInAnyCase(b: byte)
    ensures 65 <= b <= 90 ==> Lower(b) == Lower(b + 32) == b + 32
    ensures !(65 <= b <= 90) ==> Lower(b) == b
  {
  }

  // ----- And no other is -----

  /** What decides is the value: with anything else in the first line that carries the header, the response is refused. */
  lemma ValueDecides(nonce: seq<byte>, lines: seq<seq<byte>>, k: nat, rest: seq<byte>)
    requires k < |lines| && (forall i :: 0 <= i < |lines| ==> Plain(lines[i])) && Switches(lines[0])
    requires Carries(lines[k], Chars("sec-websocket-accept"))
    requires forall i :: 0 <= i < k ==> !Carries(lines[i], Chars("sec-websocket-accept"))
    ensures Accepts(nonce, Written(lines) + CRLF + rest) <==> ValueOf(lines[k]) == Chars(ExpectedAccept(nonce))
  {
    NameInLowerCase();
    hide Find, ValueOf, ExpectedAccept, Lines, Plain, FirstValue, Switches, Written, LowerAll, Chars;
    HeaderIsFound(lines, k, CRLF + rest, Chars(ACCEPT));
    hide Carries;
    SplitFirst(lines, rest);
    var tail := Written(lines[1..]) + CRLF + rest;
    Associative(lines[0], CRLF, tail);
    SwitchesStays(lines[0], CRLF + tail);
  }

  lemma NameInLowerCase()
    ensures LowerAll(Chars(ACCEPT)) == LowerAll(Chars("sec-websocket-accept"))
  {
    PrintableName();
    var low := Chars("sec-websocket-accept");
    assert low == [115, 101, 99, 45, 119, 101, 98, 115, 111, 99, 107, 101, 116, 45, 97, 99, 99, 101, 112, 116];
    hide Chars;
    forall i | 0 <= i < |low| ensures LowerAll(Chars(ACCEPT))[i] == LowerAll(low)[i] {
    }
  }

  /** A response without the header is refused. */
  lemma {:induction false} NoHeaderRefused(nonce: seq<byte>, response: seq<byte>)
    requires forall i :: 0 <= i < |Lines(response)| ==> !Carries(Lines(response)[i], Chars(ACCEPT))
    ensures !Accepts(nonce, response)
  {
    AcceptShape(nonce);
    hide Lines, Carries, Chars, ExpectedAccept, Switches;
    NoValue(Lines(response), Chars(ACCEPT));
  }

  lemma {:induction false} NoValue(lines: seq<seq<byte>>, name: seq<byte>)
    requires forall i :: 0 <= i < |lines| ==> !Carries(lines[i], name)
    ensures FirstValue(lines, name) == []
  {
    hide Carries;
    if lines != [] {
      NoValue(lines[1..], name);
    }
  }

  /** Of all status lines only those with code 101 switch protocols. */
  lemma Only101Switches(version: seq<byte>, code: seq<byte>, more: seq<byte>)
    requires |code| == 3 && forall i :: 0 <= i < |version| ==> version[i] != 32
    ensures Switches([72, 84, 84, 80, 47] + version + [32] + code + more) <==> code == [49, 48, 49]
  {
    var head := [72, 84, 84, 80, 47] + version;
    var line := head + [32] + code + more;
    var n := |head|;
    assert line == [72, 84, 84, 80, 47] + version + [32] + code + more;
    forall j: nat | j < n ensures !Occurs(line, SPACE, j) {
      assert line[j..j + 1][0] == line[j] == head[j];
    }
    assert line[n..n + 1] == SPACE;
    FoundAt(line, SPACE, 0, n);
    assert line[n + 1..n + 4] == code;
    assert line[0..5] == [72, 84, 84, 80, 47];
    assert Chars("HTTP/") == [72, 84, 84, 80, 47] && Chars("101") == [49, 48, 49];
    hide Find, Chars;
  }

  // ----- The shortest such response -----

  const STATUS_LINE: string := "HTTP/1.1 101"

  /** A status line, and the accept header with the value the nonce calls for. */
  function Answer(nonce: seq<byte>): seq<seq<byte>> {
    [Chars(STATUS_LINE), Chars(ACCEPT) + COLON + (SPACE + Chars(ExpectedAccept(nonce)))]
  }

  lemma AnswerConforms(nonce: seq<byte>)
    ensures Conforms(nonce, Answer(nonce), 1)
  {
    StatusLine();
    AcceptLine(nonce);
    hide Find, Chars, Carries, ValueOf, Switches, ExpectedAccept, Plain;
  }

  /** The same, written out. */
  lemma AnswerWritten(nonce: seq<byte>, rest: seq<byte>)
    ensures Chars("HTTP/1.1 101\r\nSec-WebSocket-Accept: ") + Chars(ExpectedAccept(nonce)) + [13, 10, 13, 10] + rest
         == Written(Answer(nonce)) + CRLF + rest
  {
    hide ExpectedAccept;
    LiteralPieces();
    WrittenAnswer(nonce);
    hide Chars, Answer, Written;
  }

  lemma LiteralPieces()
    ensures Chars("HTTP/1.1 101\r\nSec-WebSocket-Accept: ") == Chars(STATUS_LINE) + CRLF + (Chars(ACCEPT) + (COLON + SPACE))
  {
    CharsAppend("HTTP/1.1 101\r\n", "Sec-WebSocket-Accept: ");
    CharsAppend("HTTP/1.1 101", "\r\n");
    CharsAppend("Sec-WebSocket-Accept", ": ");
    assert "HTTP/1.1 101\r\n" + "Sec-WebSocket-Accept: " == "HTTP/1.1 101\r\nSec-WebSocket-Accept: ";
    assert "HTTP/1.1 101" + "\r\n" == "HTTP/1.1 101\r\n" && "Sec-WebSocket-Accept" + ": " == "Sec-WebSocket-Accept: ";
    assert Chars("\r\n") == CRLF && Chars(": ") == COLON + SPACE;
    hide Chars;
  }

  /** The client accepts this response, and what follows it is the leftover. */
  lemma LiteralResponseIsAccepted(nonce: seq<byte>, rest: seq<byte>)
    ensures var response := Chars("HTTP/1.1 101\r\nSec-WebSocket-Accept: ") + Chars(ExpectedAccept(nonce)) + [13, 10, 13, 10] + rest;
            Accepts(nonce, response) && Find(response, [13, 10, 13, 10], 0) >= 0 && Leftover(response) == rest
  {
    AnswerWritten(nonce, rest);
    AnswerConforms(nonce);
    hide Accepts, Conforms, Written, Answer, Find, Leftover, Chars, ExpectedAccept;
    ConformingResponseIsAccepted(nonce, Answer(nonce), 1, rest);
  }

  lemma WrittenAnswer(nonce: seq<byte>)
    ensures Written(Answer(nonce))
         == Chars(STATUS_LINE) + CRLF + (Chars(ACCEPT) + COLON + SPACE + Chars(ExpectedAccept(nonce)) + CRLF)
  {
    hide Chars, ExpectedAccept;
    var lines := Answer(nonce);
    var none: seq<seq<byte>> := [];
    assert lines[1..][1..] == none;
    assert Written(lines[1..]) == lines[1] + CRLF + [];
  }

  lemma CharsAppend(a: string, b: string)
    ensures Chars(a + b) == Chars(a) + Chars(b)
  {
  }

  lemma NowhereFound(line: seq<byte>, pattern: seq<byte>)
    requires pattern != [] && forall i :: 0 <= i < |line| ==> line[i] != pattern[0]
    ensures Find(line, pattern, 0) == -1
  {
    forall j: nat ensures !Occurs(line, pattern, j) {
      if j + |pattern| <= |line| {
        assert line[j..j + |pattern|][0] == line[j];
      }
    }
  }

  lemma StatusLine()
    ensures Plain(Chars(STATUS_LINE)) && Switches(Chars(STATUS_LINE)) && !Carries(Chars(STATUS_LINE), Chars(ACCEPT))
  {
    var line := Chars(STATUS_LINE);
    assert line == [72, 84, 84, 80, 47, 49, 46, 49, 32, 49, 48, 49];
    NowhereFound(line, CRLF);
    assert Occurs(line, SPACE, 8);
    forall j: nat | j < 8 ensures !Occurs(line, SPACE, j) {
      assert line[j..j + 1][0] == line[j];
    }
    FoundAt(line, SPACE, 0, 8);
    assert line[9..12] == Chars("101") && line[0..5] == Chars("HTTP/");
    NowhereFound(line, COLON);
  }

  lemma AcceptLine(nonce: seq<byte>)
    ensures Plain(Answer(nonce)[1]) && Carries(Answer(nonce)[1], Chars(ACCEPT))
    ensures ValueOf(Answer(nonce)[1]) == Chars(ExpectedAccept(nonce))
  {
    AcceptShape(nonce);
    HeaderLine(ExpectedAccept(nonce));
  }

  lemma HeaderLine(e: string)
    requires e != "" && Base64.Padded(e, 1)
    ensures var line := Chars(ACCEPT) + COLON + (SPACE + Chars(e));
            Plain(line) && Carries(line, Chars(ACCEPT)) && ValueOf(line) == Chars(e)
  {
    PrintableValue(e);
    PrintableName();
    var line, v := Chars(ACCEPT) + COLON + (SPACE + Chars(e)), Chars(e);
    assert v[0] > 32 && v[|v| - 1] > 32;
    hide Chars, Find;
    NowhereFound(Chars(ACCEPT), COLON);
    NowhereFound(line, CRLF);
    assert SPACE + v + [] == SPACE + v;
    ValueBetweenBlanks(Chars(ACCEPT), Chars(ACCEPT), SPACE, v, []);
  }

  lemma PrintableName()
    ensures forall i :: 0 <= i < |Chars(ACCEPT)| ==> Chars(ACCEPT)[i] != 13 && Chars(ACCEPT)[i] != 58
  {
    assert Chars(ACCEPT) == [83, 101, 99, 45, 87, 101, 98, 83, 111, 99, 107, 101, 116, 45, 65, 99, 99, 101, 112, 116];
  }

  /** Base64 text has no blank, colon or line break in it. */
  lemma PrintableValue(e: string)
    requires Base64.Padded(e, 1)
    ensures forall i :: 0 <= i < |e| ==> Chars(e)[i] > 32 && Chars(e)[i] != 58
  {
    forall i | 0 <= i < |e| ensures Chars(e)[i] > 32 && Chars(e)[i] != 58 {
      assert e[i] == '=' || Base64.IsLetter(e[i]);
    }
  }

  lemma {:induction false} FrontTrimmed(front: seq<byte>, s: seq<byte>)
    requires s != [] && s[0] !in {32, 9} && forall i :: 0 <= i < |front| ==> front[i] in {32, 9}
    ensures TrimFront(front + s) == s
  {
    if front == [] {
      assert front + s == s;
    } else {
      FrontTrimmed(front[1..], s);
      assert (front + s)[1..] == front[1..] + s;
    }
  }

  lemma {:induction false} BackTrimmed(s: seq<byte>, back: seq<byte>)
    requires s != [] && s[|s| - 1] !in {32, 9, 13} && forall i :: 0 <= i < |back| ==> back[i] in {32, 9, 13}
    ensures TrimBack(s + back) == s
  {
    if back == [] {
      assert s + back == s;
    } else {
      var n := |s + back| - 1;
      BackTrimmed(s, back[..|back| - 1]);
      assert (s + back)[..n] == s + back[..|back| - 1];
    }
  }
}
