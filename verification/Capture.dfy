/**
 The usage meter of the relay: an incremental splitter of a server-sent event stream into
 LF-terminated lines, fed with arbitrary chunks, against "split the whole stream and keep
 the last usage". JSON decoding is a parameter.
 */
module Capture {
  import opened Basics

  newtype byte = x: int | 0 <= x < 256

  const LF: byte := 10
  const MAX_CAPTURE: nat := 1_048_576
  const DATA: seq<byte> := [100, 97, 116, 97, 58]

  datatype Tokens = Tokens(prompt: int, completion: int, cached: Option<int>)

  /** Decodes a JSON text and yields its usage object, if it is valid and has one. */
  type Decoder = seq<byte> -> Option<Tokens>

  // ---- White space ----------------------------------------------------------------------

  predicate IsAsciiSpace(b: byte) { 9 <= b <= 13 || b == 32 }

  /** Two- and three-byte UTF-8 encodings of white space. */
  predicate IsWideSpace(s: seq<byte>) {
    || s == [0xC2, 0x85] || s == [0xC2, 0xA0] || s == [0xE1, 0x9A, 0x80] || s == [0xE3, 0x80, 0x80]
    || (|s| == 3 && s[..2] == [0xE2, 0x80] && (0x80 <= s[2] <= 0x8A || s[2] in {0xA8, 0xA9, 0xAF}))
    || s == [0xE2, 0x81, 0x9F]
  }

  /** Length of the white-space character at the front, 0 if there is none. */
  function SpaceAhead(s: seq<byte>): (n: nat)
    ensures n <= |s|
  {
    if |s| >= 1 && IsAsciiSpace(s[0]) then 1
    else if |s| >= 2 && IsWideSpace(s[..2]) then 2
    else if |s| >= 3 && IsWideSpace(s[..3]) then 3
    else 0
  }

  function SpaceBehind(s: seq<byte>): (n: nat)
    ensures n <= |s|
  {
    if |s| >= 1 && IsAsciiSpace(s[|s| - 1]) then 1
    else if |s| >= 2 && IsWideSpace(s[|s| - 2..]) then 2
    else if |s| >= 3 && IsWideSpace(s[|s| - 3..]) then 3
    else 0
  }

  function TrimLeft(s: seq<byte>): seq<byte>
    decreases |s|
  {
    if SpaceAhead(s) == 0 then s else TrimLeft(s[SpaceAhead(s)..])
  }

  function TrimRight(s: seq<byte>): seq<byte>
    decreases |s|
  {
    if SpaceBehind(s) == 0 then s else TrimRight(s[..|s| - SpaceBehind(s)])
  }

  function TrimSpace(s: seq<byte>): seq<byte> { TrimRight(TrimLeft(s)) }

  predicate LooksLikeStream(p: seq<byte>) { DATA <= TrimSpace(p) }

  /** The usage announced by one event line. */
  function ParseLine(decode: Decoder, line: seq<byte>): Option<Tokens> {
    var t := TrimSpace(line);
    if DATA <= t then decode(TrimSpace(t[|DATA|..])) else None
  }

  type Parser = seq<byte> -> Option<Tokens>

  function LineParser(decode: Decoder): Parser { (line: seq<byte>) => ParseLine(decode, line) }

  // ---- Reference: split the whole stream ------------------------------------------------

  /** The LF-terminated lines of a stream, without their LF. */
  function Lines(s: seq<byte>): seq<seq<byte>> {
    if s == [] then []
    else
      var init := s[..|s| - 1];
      if s[|s| - 1] == LF then Lines(init) + [Tail(init)] else Lines(init)
  }

  /** What follows the last LF. */
  function Tail(s: seq<byte>): seq<byte> {
    if s == [] || s[|s| - 1] == LF then [] else Tail(s[..|s| - 1]) + [s[|s| - 1]]
  }

  function Join(lines: seq<seq<byte>>): seq<byte> {
    if lines == [] then [] else Join(lines[..|lines| - 1]) + lines[|lines| - 1] + [LF]
  }

  /** Splitting loses nothing and leaves no LF inside a line or the tail, so it is the only such split. */
  lemma {:induction false} SplitRoundTrip(s: seq<byte>)
    ensures Join(Lines(s)) + Tail(s) == s
    ensures LF !in Tail(s)
    ensures forall k :: 0 <= k < |Lines(s)| ==> LF !in Lines(s)[k]
  {
    if s != [] {
      var init := s[..|s| - 1];
      SplitRoundTrip(init);
      if s[|s| - 1] == LF {
        assert Lines(s)[..|Lines(s)| - 1] == Lines(init);
      }
      assert s == init + [s[|s| - 1]];
    }
  }

  /** The last usage that any of the lines announces. */
  function LastUsage(parse: Parser, lines: seq<seq<byte>>): Option<Tokens> {
    if lines == [] then None
    else
      var u := parse(lines[|lines| - 1]);
      if u.Some? then u else LastUsage(parse, lines[..|lines| - 1])
  }

  /** It is announced by some line, and by no later one. */
  lemma {:induction false} LastUsageIsLast(parse: Parser, lines: seq<seq<byte>>)
    ensures LastUsage(parse, lines).None? <==> forall k :: 0 <= k < |lines| ==> parse(lines[k]).None?
    ensures LastUsage(parse, lines).Some? ==>
              exists k :: 0 <= k < |lines| && parse(lines[k]) == LastUsage(parse, lines) &&
                          forall j :: k < j < |lines| ==> parse(lines[j]).None?
  {
    if lines != [] {
      var n := |lines| - 1;
      if parse(lines[n]).Some? {
        assert parse(lines[n]) == LastUsage(parse, lines);
      } else {
        var init := lines[..n];
        LastUsageIsLast(parse, init);
        if LastUsage(parse, init).Some? {
          var k :| 0 <= k < |init| && parse(init[k]) == LastUsage(parse, init) &&
                   forall j :: k < j < |init| ==> parse(init[j]).None?;
          assert parse(lines[k]) == LastUsage(parse, lines);
          assert forall j :: k < j < |lines| ==> j < n ==> lines[j] == init[j];
        } else {
          assert forall k :: 0 <= k < |lines| ==> k < n ==> lines[k] == init[k];
        }
      }
    }
  }

  // ---- One byte at a time ---------------------------------------------------------------

  datatype Meter = Meter(line: seq<byte>, usage: Option<Tokens>)

  const BLANK := Meter([], None)

  /** The meter after a line ends. */
  function Ended(parse: Parser, m: Meter): Meter {
    var u := parse(m.line);
    Meter([], if u.Some? then u else m.usage)
  }

  function FeedByte(parse: Parser, m: Meter, b: byte): Meter {
    if b == LF then Ended(parse, m) else m.(line := m.line + [b])
  }

  function Feed(parse: Parser, m: Meter, s: seq<byte>): Meter {
    if s == [] then m else FeedByte(parse, Feed(parse, m, s[..|s| - 1]), s[|s| - 1])
  }

  lemma {:induction false} FeedConcat(parse: Parser, m: Meter, a: seq<byte>, b: seq<byte>)
    ensures Feed(parse, m, a + b) == Feed(parse, Feed(parse, m, a), b)
    decreases |b|
  {
    if b == [] {
      assert a + b == a;
    } else {
      FeedConcat(parse, m, a, b[..|b| - 1]);
      assert (a + b)[..|a + b| - 1] == a + b[..|b| - 1];
    }
  }

  lemma {:induction false} FeedWithoutLF(parse: Parser, m: Meter, s: seq<byte>)
    requires LF !in s
    ensures Feed(parse, m, s) == m.(line := m.line + s)
  {
    if s == [] {
      assert m.line + s == m.line;
    } else {
      var n := |s| - 1;
      assert s == s[..n] + [s[n]];
      FeedWithoutLF(parse, m, s[..n]);
      assert s[n] in s;
      assert m.line + s == m.line + s[..n] + [s[n]];
    }
  }

  /** Feeding a whole stream computes the reference. */
  lemma {:induction false} FeedIsReference(parse: Parser, s: seq<byte>)
    ensures Feed(parse, BLANK, s) == Meter(Tail(s), LastUsage(parse, Lines(s)))
  {
    if s != [] {
      var init := s[..|s| - 1];
      FeedIsReference(parse, init);
      if s[|s| - 1] == LF {
        assert Lines(s)[..|Lines(s)| - 1] == Lines(init);
      }
    }
  }

  // ---- Chunks, with the line buffer bounded ---------------------------------------------

  /** Position of the first LF, or the length. */
  function FirstLF(s: seq<byte>): (i: nat)
    ensures i <= |s|
    ensures forall k :: 0 <= k < i ==> s[k] != LF
    ensures i < |s| ==> s[i] == LF
  {
    if s == [] || s[0] == LF then 0 else 1 + FirstLF(s[1..])
  }

  /** appendLine: a piece that would overflow the buffer is dropped whole. */
  function Append(line: seq<byte>, piece: seq<byte>): seq<byte> {
    if |line| + |piece| <= MAX_CAPTURE then line + piece else line
  }

  /** What capturing one chunk in stream mode does. */
  function Absorb(parse: Parser, m: Meter, p: seq<byte>): Meter
    decreases |p|
  {
    if p == [] then m
    else
      var i := FirstLF(p);
      if i == |p| then m.(line := Append(m.line, p))
      else Absorb(parse, Ended(parse, m.(line := Append(m.line, p[..i]))), p[i + 1..])
  }

  /** No LF-terminated line of the stream is longer than the buffer. */
  ghost predicate ShortLines(s: seq<byte>) {
    forall k :: 0 <= k < |Lines(s)| ==> |Lines(s)[k]| <= MAX_CAPTURE
  }

  /** More bytes without LF lengthen the tail and end no line. */
  lemma {:induction false} LinesPlain(s: seq<byte>, p: seq<byte>)
    requires LF !in p
    ensures Lines(s + p) == Lines(s) && Tail(s + p) == Tail(s) + p
  {
    if p == [] {
      assert s + p == s;
    } else {
      var n := |p| - 1;
      assert p[n] in p && p == p[..n] + [p[n]];
      LinesPlain(s, p[..n]);
      assert (s + p)[..|s + p| - 1] == s + p[..n];
      assert Tail(s) + p == Tail(s) + p[..n] + [p[n]];
    }
  }

  /** An LF turns the tail into a line. */
  lemma LinesEnd(s: seq<byte>)
    ensures Lines(s + [LF]) == Lines(s) + [Tail(s)] && Tail(s + [LF]) == []
  {
    assert (s + [LF])[..|s|] == s;
  }

  /** The lines of a stream stay its first lines. */
  lemma {:induction false} LinesGrow(s: seq<byte>, p: seq<byte>)
    ensures Lines(s) <= Lines(s + p)
  {
    if p == [] {
      assert s + p == s;
    } else {
      LinesGrow(s, p[..|p| - 1]);
      assert (s + p)[..|s + p| - 1] == s + p[..|p| - 1];
    }
  }

  lemma ShortBefore(s: seq<byte>, p: seq<byte>)
    requires ShortLines(s + p)
    ensures ShortLines(s)
  {
    LinesGrow(s, p);
    assert forall k :: 0 <= k < |Lines(s)| ==> Lines(s)[k] == Lines(s + p)[k];
  }

  /** The buffer never overflows while `p` is fed. */
  ghost predicate Fits(parse: Parser, m: Meter, p: seq<byte>) {
    forall k :: 0 <= k <= |p| ==> |Feed(parse, m, p[..k]).line| <= MAX_CAPTURE
  }

  /** Feeding up to and including the first LF ends a line. */
  lemma FeedToLF(parse: Parser, m: Meter, p: seq<byte>, i: nat)
    requires i < |p| && i == FirstLF(p)
    ensures Feed(parse, m, p[..i + 1]) == Ended(parse, m.(line := m.line + p[..i]))
  {
    FeedWithoutLF(parse, m, p[..i]);
    assert p[..i + 1][..i] == p[..i];
  }

  lemma FeedSplit(parse: Parser, m: Meter, p: seq<byte>, j: nat, k: nat)
    requires j + k <= |p|
    ensures Feed(parse, Feed(parse, m, p[..j]), p[j..][..k]) == Feed(parse, m, p[..j + k])
  {
    assert p[..j + k] == p[..j] + p[j..][..k];
    FeedConcat(parse, m, p[..j], p[j..][..k]);
  }

  lemma FitsRest(parse: Parser, m: Meter, p: seq<byte>, j: nat)
    requires j <= |p| && Fits(parse, m, p)
    ensures Fits(parse, Feed(parse, m, p[..j]), p[j..])
  {
    var m', rest := Feed(parse, m, p[..j]), p[j..];
    forall k | 0 <= k <= |rest| ensures |Feed(parse, m', rest[..k]).line| <= MAX_CAPTURE {
      FeedSplit(parse, m, p, j, k);
    }
  }

  /** What fits overall fits up to the first LF. */
  lemma FirstPieceFits(parse: Parser, m: Meter, p: seq<byte>)
    requires Fits(parse, m, p)
    ensures Append(m.line, p[..FirstLF(p)]) == m.line + p[..FirstLF(p)]
    ensures FirstLF(p) == |p| ==> Feed(parse, m, p) == m.(line := m.line + p)
  {
    var i := FirstLF(p);
    FeedWithoutLF(parse, m, p[..i]);
    assert |Feed(parse, m, p[..i]).line| <= MAX_CAPTURE;
    if i == |p| {
      assert p[..i] == p;
    }
  }

  /** Feeding what follows the first LF completes the feed. */
  lemma FeedRest(parse: Parser, m: Meter, p: seq<byte>, j: nat)
    requires j <= |p|
    ensures Feed(parse, Feed(parse, m, p[..j]), p[j..]) == Feed(parse, m, p)
  {
    FeedConcat(parse, m, p[..j], p[j..]);
    assert p == p[..j] + p[j..];
  }

  /** While lines fit the buffer, nothing is dropped. */
  lemma {:induction false} AbsorbIsFeed(parse: Parser, m: Meter, p: seq<byte>)
    requires Fits(parse, m, p)
    ensures Absorb(parse, m, p) == Feed(parse, m, p)
    decreases |p|
  {
    var i := FirstLF(p);
    FirstPieceFits(parse, m, p);
    if i == |p| {
      assert p[..i] == p;
    } else {
      FeedToLF(parse, m, p, i);
      FitsRest(parse, m, p, i + 1);
      FeedRest(parse, m, p, i + 1);
      AbsorbIsFeed(parse, Feed(parse, m, p[..i + 1]), p[i + 1..]);
    }
  }

  function AbsorbAll(parse: Parser, m: Meter, chunks: seq<seq<byte>>): Meter {
    if chunks == [] then m
    else Absorb(parse, AbsorbAll(parse, m, chunks[..|chunks| - 1]), chunks[|chunks| - 1])
  }

  function Concat(chunks: seq<seq<byte>>): seq<byte> {
    if chunks == [] then [] else Concat(chunks[..|chunks| - 1]) + chunks[|chunks| - 1]
  }

  /** The meter has the reference's usage and, unless the tail has overflowed, its tail. */
  ghost predicate Tracks(parse: Parser, m: Meter, s: seq<byte>) {
    m.usage == LastUsage(parse, Lines(s)) && (|Tail(s)| <= MAX_CAPTURE ==> m.line == Tail(s))
  }

  lemma TracksPiece(parse: Parser, m: Meter, s: seq<byte>, p: seq<byte>)
    requires Tracks(parse, m, s) && LF !in p
    ensures Tracks(parse, m.(line := Append(m.line, p)), s + p)
  {
    LinesPlain(s, p);
  }

  /** A line that fits ends as in the reference. */
  lemma TracksEnd(parse: Parser, m: Meter, s: seq<byte>)
    requires Tracks(parse, m, s) && |Tail(s)| <= MAX_CAPTURE
    ensures Tracks(parse, Ended(parse, m), s + [LF])
  {
    LinesEnd(s);
    assert (Lines(s) + [Tail(s)])[..|Lines(s)|] == Lines(s);
  }

  lemma {:induction false} TracksChunk(parse: Parser, m: Meter, s: seq<byte>, p: seq<byte>)
    requires Tracks(parse, m, s) && ShortLines(s + p)
    ensures Tracks(parse, Absorb(parse, m, p), s + p)
    decreases |p|
  {
    var i := FirstLF(p);
    if p == [] {
      assert s + p == s;
    } else if i == |p| {
      TracksPiece(parse, m, s, p);
    } else {
      var q, rest := p[..i], p[i + 1..];
      var s' := s + q + [LF];
      assert s + p == s' + rest;
      TracksPiece(parse, m, s, q);
      ShortBefore(s', rest);
      LinesEnd(s + q);
      assert Lines(s')[|Lines(s')| - 1] == Tail(s + q);
      TracksEnd(parse, m.(line := Append(m.line, q)), s + q);
      TracksChunk(parse, Ended(parse, m.(line := Append(m.line, q))), s', rest);
    }
  }

  lemma {:induction false} TracksAll(parse: Parser, chunks: seq<seq<byte>>)
    requires ShortLines(Concat(chunks))
    ensures Tracks(parse, AbsorbAll(parse, BLANK, chunks), Concat(chunks))
  {
    if chunks != [] {
      var init, last := chunks[..|chunks| - 1], chunks[|chunks| - 1];
      ShortBefore(Concat(init), last);
      TracksAll(parse, init);
      TracksChunk(parse, AbsorbAll(parse, BLANK, init), Concat(init), last);
    }
  }

  /**
   Chunking is irrelevant: in stream mode, while no LF-terminated line exceeds the buffer,
   the captured usage after any sequence of writes is the last usage announced by such a
   line of the whole stream. The unterminated tail contributes nothing, however long it is;
   the buffer holds it if it fits.
   */
  lemma ChunkingIrrelevant(parse: Parser, chunks: seq<seq<byte>>)
    requires ShortLines(Concat(chunks))
    ensures var s, m := Concat(chunks), AbsorbAll(parse, BLANK, chunks);
            && m.usage == LastUsage(parse, Lines(s))
            && (|Tail(s)| <= MAX_CAPTURE ==> m.line == Tail(s))
  {
    TracksAll(parse, chunks);
  }

  /** Two ways of cutting the same stream capture the same usage. */
  lemma SameStreamSameUsage(parse: Parser, chunks: seq<seq<byte>>, chunks': seq<seq<byte>>)
    requires Concat(chunks) == Concat(chunks') && ShortLines(Concat(chunks))
    ensures AbsorbAll(parse, BLANK, chunks).usage == AbsorbAll(parse, BLANK, chunks').usage
    ensures |Tail(Concat(chunks))| <= MAX_CAPTURE ==>
              AbsorbAll(parse, BLANK, chunks) == AbsorbAll(parse, BLANK, chunks')
  {
    ChunkingIrrelevant(parse, chunks);
    ChunkingIrrelevant(parse, chunks');
  }

  lemma NotWide(s: seq<byte>)
    requires s != [] && (s[0] < 0x80 || s[|s| - 1] < 0x80)
    ensures !IsWideSpace(s)
  {
    assert |s| == 3 ==> s[..2][0] == s[0];
  }

  /** A text that starts and ends with a plain character, as a JSON object does. */
  predicate PlainEnds(s: seq<byte>) {
    |s| >= 3 && s[0] < 0x80 && !IsAsciiSpace(s[0]) && s[|s| - 1] < 0x80 && !IsAsciiSpace(s[|s| - 1])
  }

  /** It is not trimmed. */
  lemma PlainEndsStay(s: seq<byte>)
    requires PlainEnds(s)
    ensures TrimSpace(s) == s
  {
    NotWide(s[..2]);
    NotWide(s[..3]);
    NotWide(s[|s| - 2..]);
    NotWide(s[|s| - 3..]);
  }

  /** One line in one chunk, when it does and when it does not fit the buffer. */
  lemma AbsorbLine(parse: Parser, m: Meter, line: seq<byte>)
    requires LF !in line
    ensures Absorb(parse, m, line + [LF]) == Ended(parse, m.(line := Append(m.line, line)))
  {
    var p := line + [LF];
    var i := FirstLF(p);
    assert p[|line|] == LF;
    assert forall k :: 0 <= k < |line| ==> p[k] == line[k] && line[k] != LF;
    assert i == |line|;
    assert p[..i] == line && p[i + 1..] == [];
  }

  /**
   For an overlong line the cut does matter: the same bytes announce a usage or none,
   depending on whether the part that fits arrives as a chunk of its own.
   */
  lemma OverlongLineDependsOnCut(parse: Parser, head: seq<byte>, rest: seq<byte>, u: Tokens)
    requires |head| <= MAX_CAPTURE < |head| + |rest| && LF !in head && LF !in rest
    requires parse([]) == None && parse(head) == Some(u)
    ensures head + (rest + [LF]) == (head + rest) + [LF]
    ensures Absorb(parse, BLANK, (head + rest) + [LF]).usage == None
    ensures Absorb(parse, Absorb(parse, BLANK, head), rest + [LF]).usage == Some(u)
  {
    AbsorbLine(parse, BLANK, head + rest);
    assert Absorb(parse, BLANK, head) == Meter(head, None) by {
      assert forall k :: 0 <= k < |head| ==> head[k] != LF;
      assert [] + head == head;
    }
    AbsorbLine(parse, Meter(head, None), rest);
  }

  lemma ParsePayload(decode: Decoder, payload: seq<byte>)
    requires PlainEnds(payload)
    ensures ParseLine(decode, DATA + payload) == decode(payload)
  {
    var head := DATA + payload;
    assert head[0] == DATA[0] && head[|head| - 1] == payload[|payload| - 1];
    PlainEndsStay(head);
    PlainEndsStay(payload);
    assert head[|DATA|..] == payload;
  }

  /** The relay's own parser is subject to it: an event that fits, followed on its line by anything too long. */
  lemma OverlongEventDependsOnCut(decode: Decoder, head: seq<byte>, payload: seq<byte>, rest: seq<byte>, u: Tokens)
    requires head == DATA + payload && PlainEnds(payload) && decode(payload) == Some(u)
    requires |head| <= MAX_CAPTURE < |head| + |rest| && LF !in head && LF !in rest
    ensures Absorb(LineParser(decode), BLANK, (head + rest) + [LF]).usage == None
    ensures Absorb(LineParser(decode), Absorb(LineParser(decode), BLANK, head), rest + [LF]).usage == Some(u)
  {
    var parse := LineParser(decode);
    assert parse(head) == Some(u) by { ParsePayload(decode, payload); }
    assert parse([]) == None by { assert TrimSpace([]) == []; }
    OverlongLineDependsOnCut(parse, head, rest, u);
  }

  /** For every JSON decoder, a line leaves the same behind in whatever chunks it is delivered. */
  ghost predicate CutsAgree(line: seq<byte>) {
    forall decode: Decoder, chunks: seq<seq<byte>> :: Concat(chunks) == line + [LF] ==>
      AbsorbAll(LineParser(decode), BLANK, chunks) == Absorb(LineParser(decode), BLANK, line + [LF])
  }

  /** The text in the buffer after a line, or a body, has arrived in these pieces. */
  function Kept(pieces: seq<seq<byte>>): seq<byte> {
    if pieces == [] then [] else Append(Kept(pieces[..|pieces| - 1]), pieces[|pieces| - 1])
  }

  /** Some cut of the line leaves an event in the buffer. */
  ghost predicate KeepsEvent(line: seq<byte>) {
    exists pieces :: Concat(pieces) == line && LooksLikeStream(Kept(pieces))
  }

  lemma LinesOfOne(line: seq<byte>)
    requires LF !in line
    ensures Lines(line + [LF]) == [line] && Tail(line + [LF]) == []
  {
    assert [] + line == line;
    LinesPlain([], line);
    LinesEnd(line);
  }

  lemma AbsorbPiece(parse: Parser, m: Meter, p: seq<byte>)
    requires LF !in p
    ensures Absorb(parse, m, p) == m.(line := Append(m.line, p))
  {
    assert forall k :: 0 <= k < |p| ==> p[k] != LF;
    assert p == [] ==> m.line + p == m.line;
  }

  lemma {:induction false} KeptPieces(parse: Parser, pieces: seq<seq<byte>>)
    requires LF !in Concat(pieces)
    ensures AbsorbAll(parse, BLANK, pieces) == Meter(Kept(pieces), None)
  {
    if pieces != [] {
      var init, last := pieces[..|pieces| - 1], pieces[|pieces| - 1];
      KeptPieces(parse, init);
      AbsorbPiece(parse, Meter(Kept(init), None), last);
    }
  }

  /** However a terminated line is cut, its outcome is the parse of some pieces' kept text. */
  lemma {:induction false} CutOutcome(parse: Parser, chunks: seq<seq<byte>>, line: seq<byte>)
    returns (pieces: seq<seq<byte>>)
    requires LF !in line && Concat(chunks) == line + [LF]
    ensures Concat(pieces) == line
    ensures AbsorbAll(parse, BLANK, chunks) == Ended(parse, Meter(Kept(pieces), None))
  {
    var init, last := chunks[..|chunks| - 1], chunks[|chunks| - 1];
    if last == [] {
      assert Concat(init) == Concat(chunks);
      pieces := CutOutcome(parse, init, line);
    } else {
      var rest := last[..|last| - 1];
      assert last[|last| - 1] == Concat(chunks)[|line|] == LF;
      assert last == rest + [LF];
      assert Concat(init) + rest == line by {
        assert Concat(init) + rest + [LF] == line + [LF];
        assert (line + [LF])[..|line|] == line;
      }
      pieces := init + [rest];
      assert pieces[..|pieces| - 1] == init;
      KeptPieces(parse, init);
      AbsorbLine(parse, Meter(Kept(init), None), rest);
    }
  }

  /** And every kept text is the outcome of some cut. */
  lemma PiecesOutcome(parse: Parser, pieces: seq<seq<byte>>)
    requires LF !in Concat(pieces)
    ensures Concat(pieces + [[LF]]) == Concat(pieces) + [LF]
    ensures AbsorbAll(parse, BLANK, pieces + [[LF]]) == Ended(parse, Meter(Kept(pieces), None))
  {
    assert (pieces + [[LF]])[..|pieces|] == pieces;
    KeptPieces(parse, pieces);
    assert [] + [LF] == [LF];
    AbsorbLine(parse, Meter(Kept(pieces), None), []);
    assert Kept(pieces) + [] == Kept(pieces);
  }

  lemma NoEventNoUsage(decode: Decoder, text: seq<byte>)
    requires !LooksLikeStream(text)
    ensures Ended(LineParser(decode), Meter(text, None)) == BLANK
  {
  }

  lemma EmptyIsNoEvent()
    ensures !LooksLikeStream([])
  {
    assert TrimSpace([]) == [];
  }

  lemma FittingCutsAgree(line: seq<byte>)
    requires LF !in line && |line| <= MAX_CAPTURE
    ensures CutsAgree(line)
  {
    LinesOfOne(line);
    forall decode: Decoder, chunks: seq<seq<byte>> | Concat(chunks) == line + [LF]
      ensures AbsorbAll(LineParser(decode), BLANK, chunks) == Absorb(LineParser(decode), BLANK, line + [LF])
    {
      var whole := [line + [LF]];
      assert whole[..0] == [] && Concat(whole) == line + [LF];
      assert AbsorbAll(LineParser(decode), BLANK, whole) == Absorb(LineParser(decode), BLANK, line + [LF]);
      SameStreamSameUsage(LineParser(decode), chunks, whole);
    }
  }

  /** An overlong line in one chunk is dropped whole and announces nothing. */
  lemma OverlongWhole(decode: Decoder, line: seq<byte>)
    requires LF !in line && |line| > MAX_CAPTURE
    ensures Absorb(LineParser(decode), BLANK, line + [LF]) == BLANK
  {
    AbsorbLine(LineParser(decode), BLANK, line);
    EmptyIsNoEvent();
    NoEventNoUsage(decode, []);
  }

  lemma NoEventKeptAgrees(line: seq<byte>)
    requires LF !in line && |line| > MAX_CAPTURE && !KeepsEvent(line)
    ensures CutsAgree(line)
  {
    forall decode: Decoder, chunks: seq<seq<byte>> | Concat(chunks) == line + [LF]
      ensures AbsorbAll(LineParser(decode), BLANK, chunks) == Absorb(LineParser(decode), BLANK, line + [LF])
    {
      var pieces := CutOutcome(LineParser(decode), chunks, line);
      NoEventNoUsage(decode, Kept(pieces));
      OverlongWhole(decode, line);
    }
  }

  /** A text that looks like an event announces a usage to a decoder that accepts everything. */
  lemma EventUsage(decode: Decoder, text: seq<byte>)
    requires LooksLikeStream(text) && forall t :: decode(t).Some?
    ensures Ended(LineParser(decode), Meter(text, None)).usage.Some?
  {
  }

  lemma EventKeptDisagrees(line: seq<byte>, pieces: seq<seq<byte>>)
    requires LF !in line && |line| > MAX_CAPTURE && Concat(pieces) == line && LooksLikeStream(Kept(pieces))
    ensures !CutsAgree(line)
  {
    var decode: Decoder := (text: seq<byte>) => Some(Tokens(0, 0, None));
    EventUsage(decode, Kept(pieces));
    DisagreesBy(decode, line, pieces);
  }

  lemma DisagreesBy(decode: Decoder, line: seq<byte>, pieces: seq<seq<byte>>)
    requires LF !in line && |line| > MAX_CAPTURE && Concat(pieces) == line
    requires Ended(LineParser(decode), Meter(Kept(pieces), None)).usage.Some?
    ensures !CutsAgree(line)
  {
    PiecesOutcome(LineParser(decode), pieces);
    OverlongWhole(decode, line);
  }

  /**
   Exactly which lines are captured the same however they are cut, for every decoder: those
   that fit the buffer, and those of which no cut leaves an event in it.
   */
  lemma CutsAgreeIff(line: seq<byte>)
    requires LF !in line
    ensures CutsAgree(line) <==> |line| <= MAX_CAPTURE || !KeepsEvent(line)
  {
    if |line| <= MAX_CAPTURE {
      FittingCutsAgree(line);
    } else if !KeepsEvent(line) {
      NoEventKeptAgrees(line);
    } else {
      var pieces :| Concat(pieces) == line && LooksLikeStream(Kept(pieces));
      EventKeptDisagrees(line, pieces);
    }
  }

  /** Of an overlong line, any part at the front that fits can be what is kept. */
  lemma PrefixKept(line: seq<byte>, j: nat)
    requires j <= MAX_CAPTURE < |line|
    ensures Concat([line[..j], line[j..]]) == line && Kept([line[..j], line[j..]]) == line[..j]
  {
    var pieces := [line[..j], line[j..]];
    assert pieces[..1] == [line[..j]] && [line[..j]][..0] == [];
    assert Kept([line[..j]]) == line[..j] by {
      assert [] + line[..j] == line[..j];
    }
    assert Concat([line[..j]]) == line[..j];
    assert line[..j] + line[j..] == line;
  }

  /**
   For an event line, one that begins with `data:` after white space within the buffer's
   length, the bound is exact: it is captured the same however it is cut if and only if it
   fits the buffer.
   */
  lemma EventCutsAgreeIffFits(line: seq<byte>, j: nat)
    requires LF !in line && j <= |line| && j <= MAX_CAPTURE && LooksLikeStream(line[..j])
    ensures CutsAgree(line) <==> |line| <= MAX_CAPTURE
  {
    if |line| <= MAX_CAPTURE {
      FittingCutsAgree(line);
    } else {
      PrefixKept(line, j);
      EventKeptDisagrees(line, [line[..j], line[j..]]);
    }
  }

  /**
   Other overlong lines can disagree too: an event behind more than a buffer of other text
   is kept by a cut in between.
   */
  lemma BuriedEventDisagrees(junk: seq<byte>, event: seq<byte>)
    requires LF !in junk && LF !in event && |event| <= MAX_CAPTURE < |junk| && LooksLikeStream(event)
    ensures !CutsAgree(junk + event)
  {
    var pieces := [junk, event];
    assert pieces[..1] == [junk] && [junk][..0] == [];
    assert Kept([junk]) == [] && [] + event == event;
    assert Concat([junk]) == junk;
    EventKeptDisagrees(junk + event, pieces);
  }

  lemma {:induction false} KeptFromLine(pieces: seq<seq<byte>>, b: byte)
    requires b in Kept(pieces)
    ensures b in Concat(pieces)
  {
    var init := pieces[..|pieces| - 1];
    if b in Kept(init) {
      KeptFromLine(init, b);
    }
  }

  lemma {:induction false} TrimLeftKeepsEnd(s: seq<byte>)
    ensures |TrimLeft(s)| <= |s| && TrimLeft(s) == s[|s| - |TrimLeft(s)|..]
    decreases |s|
  {
    if SpaceAhead(s) != 0 {
      TrimLeftKeepsEnd(s[SpaceAhead(s)..]);
    }
  }

  lemma {:induction false} TrimRightKeepsFront(s: seq<byte>)
    ensures TrimRight(s) <= s
    decreases |s|
  {
    if SpaceBehind(s) != 0 {
      TrimRightKeepsFront(s[..|s| - SpaceBehind(s)]);
    }
  }

  /** An event contains the bytes of its field name. */
  lemma EventHasField(text: seq<byte>, i: nat)
    requires LooksLikeStream(text) && i < |DATA|
    ensures DATA[i] in text
  {
    var t := TrimLeft(text);
    TrimLeftKeepsEnd(text);
    TrimRightKeepsFront(t);
    assert DATA[i] == TrimSpace(text)[i] == t[i] == text[|text| - |t| + i];
  }

  /** A line that lacks a byte of `data:` is captured the same however it is cut and however long it is. */
  lemma PlainCutsAgree(line: seq<byte>, i: nat)
    requires LF !in line && i < |DATA| && DATA[i] !in line
    ensures CutsAgree(line)
  {
    CutsAgreeIff(line);
    forall pieces | Concat(pieces) == line ensures !LooksLikeStream(Kept(pieces)) {
      if LooksLikeStream(Kept(pieces)) {
        EventHasField(Kept(pieces), i);
        KeptFromLine(pieces, DATA[i]);
        assert false;
      }
    }
  }

  // ---- What counts as an event ----------------------------------------------------------

  /** An event line, written out: white space, `data:`, white space, the payload, and a carriage return. */
  lemma EventFormat(decode: Decoder, payload: seq<byte>)
    requires PlainEnds(payload)
    ensures ParseLine(decode, [32, 100, 97, 116, 97, 58, 32] + payload + [13]) == decode(payload)
    ensures ParseLine(decode, [100, 97, 116, 97, 58] + payload) == decode(payload)
  {
    var body := DATA + [32] + payload;
    var line := [32, 100, 97, 116, 97, 58, 32] + payload + [13];
    assert line == [32] + body + [13];
    TrimOne(32, body, 13);
    assert body[0] == DATA[0] && body[|body| - 1] == payload[|payload| - 1];
    PlainEndsStay(body);
    assert body[|DATA|..] == [32] + payload;
    TrimFront(32, payload);
    PlainEndsStay(payload);
    ParsePayload(decode, payload);
  }

  lemma TrimFront(b: byte, text: seq<byte>)
    requires IsAsciiSpace(b)
    ensures TrimSpace([b] + text) == TrimSpace(text)
  {
    assert ([b] + text)[1..] == text;
  }

  lemma TrimOne(b: byte, text: seq<byte>, c: byte)
    requires IsAsciiSpace(b) && IsAsciiSpace(c) && PlainEnds(text)
    ensures TrimSpace([b] + text + [c]) == TrimSpace(text)
  {
    var rest := text + [c];
    assert [b] + text + [c] == [b] + rest;
    TrimFront(b, rest);
    assert rest[..2] == text[..2] && rest[..3] == text[..3];
    NotWide(text[..2]);
    NotWide(text[..3]);
    assert TrimLeft(rest) == rest && TrimLeft(text) == text;
    assert rest[..|rest| - 1] == text;
  }

  /** A line that starts with another plain character than `d` announces nothing. */
  lemma OtherFieldSilent(decode: Decoder, line: seq<byte>)
    requires PlainEnds(line) && line[0] != 100
    ensures ParseLine(decode, line) == None
  {
    PlainEndsStay(line);
    assert DATA[0] == 100;
  }

  /** White space at either end: the ASCII kinds and, in UTF-8, every other one. */
  lemma SpacesMean(s: seq<byte>)
    ensures |s| == 1 ==> (SpaceAhead(s) == 1 <==> s[0] in [9, 10, 11, 12, 13, 32])
    ensures |s| == 2 && s[0] == 0xC2 ==> (SpaceAhead(s) == 2 <==> s[1] in [0x85, 0xA0])
    ensures |s| == 3 && s[0] == 0xE2 && s[1] == 0x80 ==>
              (SpaceAhead(s) == 3 <==> 0x80 <= s[2] <= 0x8A || s[2] in [0xA8, 0xA9, 0xAF])
    ensures SpaceAhead([0xE1, 0x9A, 0x80]) == 3 && SpaceAhead([0xE2, 0x81, 0x9F]) == 3 &&
            SpaceAhead([0xE3, 0x80, 0x80]) == 3
    ensures 1 <= |s| <= 3 ==> (SpaceBehind(s) == |s| <==> SpaceAhead(s) == |s|)
  {
    var a, b, c: seq<byte> := [0xE1, 0x9A, 0x80], [0xE2, 0x81, 0x9F], [0xE3, 0x80, 0x80];
    assert a[..3] == a && b[..3] == b && c[..3] == c;
    assert |a[..2]| == 2 && |b[..2]| == 2 && |c[..2]| == 2 && a[..2][0] == 0xE1 && b[..2][0] == 0xE2 &&
           c[..2][0] == 0xE3;
    if |s| == 2 {
      assert s[..2] == s && s == [s[0], s[1]];
    }
    if |s| == 3 {
      assert s[..3] == s && |s[..2]| == 2 && s[..2][0] == s[0] && s[..2] == [s[0], s[1]];
    }
  }

  /** The buffer takes 1048576 bytes and not one more, and lines end at byte 10. */
  lemma CaptureLimits(piece: seq<byte>)
    ensures Append([], piece) == if |piece| <= 1_048_576 then piece else []
    ensures Lines([1, 10, 2]) == [[1]] && Tail([1, 10, 2]) == [2]
  {
    assert [] + piece == piece;
    var s: seq<byte> := [1, 10, 2];
    assert s[..2] == [1, 10] && [1, 10][..1] == [1] && [1][..0] == [];
    assert Lines([1]) == [] && Tail([1]) == [1];
    assert Lines([1, 10]) == [[1]] && Tail([1, 10]) == [];
  }

  // ---- Streams with harmless overlong lines ---------------------------------------------

  /** What fits is kept whole. */
  lemma {:induction false} KeptWhole(chunks: seq<seq<byte>>)
    requires |Concat(chunks)| <= MAX_CAPTURE
    ensures Kept(chunks) == Concat(chunks)
  {
    if chunks != [] {
      KeptWhole(chunks[..|chunks| - 1]);
    }
  }

  /** The lines that fit the buffer. */
  function Fitting(lines: seq<seq<byte>>): seq<seq<byte>> {
    if lines == [] then []
    else
      var n := |lines| - 1;
      Fitting(lines[..n]) + if |lines[n]| <= MAX_CAPTURE then [lines[n]] else []
  }

  /** No cut of an overlong line leaves an event in the buffer. */
  ghost predicate Harmless(s: seq<byte>) {
    forall k :: 0 <= k < |Lines(s)| ==> |Lines(s)[k]| <= MAX_CAPTURE || !KeepsEvent(Lines(s)[k])
  }

  /** The usage is that of the lines that fit, and the buffer holds what some cut of the tail leaves. */
  ghost predicate TracksFitting(decode: Decoder, m: Meter, s: seq<byte>, pieces: seq<seq<byte>>) {
    && m.usage == LastUsage(LineParser(decode), Fitting(Lines(s)))
    && Concat(pieces) == Tail(s) && m.line == Kept(pieces)
  }

  lemma FittingPiece(decode: Decoder, m: Meter, s: seq<byte>, pieces: seq<seq<byte>>, p: seq<byte>)
    requires TracksFitting(decode, m, s, pieces) && LF !in p
    ensures TracksFitting(decode, m.(line := Append(m.line, p)), s + p, pieces + [p])
  {
    LinesPlain(s, p);
    assert (pieces + [p])[..|pieces|] == pieces;
  }

  lemma FittingEnd(decode: Decoder, m: Meter, s: seq<byte>, pieces: seq<seq<byte>>)
    requires TracksFitting(decode, m, s, pieces) && (|Tail(s)| <= MAX_CAPTURE || !KeepsEvent(Tail(s)))
    ensures TracksFitting(decode, Ended(LineParser(decode), m), s + [LF], [])
  {
    var parse, lines := LineParser(decode), Lines(s);
    LinesEnd(s);
    assert (lines + [Tail(s)])[..|lines|] == lines;
    if |Tail(s)| <= MAX_CAPTURE {
      KeptWhole(pieces);
      assert (Fitting(lines) + [Tail(s)])[..|Fitting(lines)|] == Fitting(lines);
    } else {
      SilentLine(decode, m.line, pieces, Tail(s));
      assert Fitting(lines) + [] == Fitting(lines);
    }
  }

  lemma SilentLine(decode: Decoder, line: seq<byte>, pieces: seq<seq<byte>>, tail: seq<byte>)
    requires !KeepsEvent(tail) && Concat(pieces) == tail && line == Kept(pieces)
    ensures LineParser(decode)(line) == None
  {
    assert !LooksLikeStream(Kept(pieces));
  }

  lemma HarmlessLine(s: seq<byte>, rest: seq<byte>)
    requires Harmless(s + [LF] + rest)
    ensures |Tail(s)| <= MAX_CAPTURE || !KeepsEvent(Tail(s))
  {
    var all := Lines(s + [LF] + rest);
    LinesEnd(s);
    LinesGrow(s + [LF], rest);
    assert all[|Lines(s)|] == Tail(s);
  }

  lemma {:induction false} FittingChunk(decode: Decoder, m: Meter, s: seq<byte>, pieces: seq<seq<byte>>, p: seq<byte>)
    returns (pieces': seq<seq<byte>>)
    requires TracksFitting(decode, m, s, pieces) && Harmless(s + p)
    ensures TracksFitting(decode, Absorb(LineParser(decode), m, p), s + p, pieces')
    decreases |p|
  {
    var i := FirstLF(p);
    if p == [] {
      assert s + p == s;
      pieces' := pieces;
    } else if i == |p| {
      FittingPiece(decode, m, s, pieces, p);
      pieces' := pieces + [p];
    } else {
      var q, rest := p[..i], p[i + 1..];
      assert s + p == s + q + [LF] + rest;
      FittingPiece(decode, m, s, pieces, q);
      HarmlessLine(s + q, rest);
      FittingEnd(decode, m.(line := Append(m.line, q)), s + q, pieces + [q]);
      var m' := Ended(LineParser(decode), m.(line := Append(m.line, q)));
      pieces' := FittingChunk(decode, m', s + q + [LF], [], rest);
    }
  }

  lemma HarmlessBefore(s: seq<byte>, p: seq<byte>)
    requires Harmless(s + p)
    ensures Harmless(s)
  {
    LinesGrow(s, p);
    assert forall k :: 0 <= k < |Lines(s)| ==> Lines(s)[k] == Lines(s + p)[k];
  }

  lemma {:induction false} FittingAll(decode: Decoder, chunks: seq<seq<byte>>) returns (pieces: seq<seq<byte>>)
    requires Harmless(Concat(chunks))
    ensures TracksFitting(decode, AbsorbAll(LineParser(decode), BLANK, chunks), Concat(chunks), pieces)
  {
    if chunks == [] {
      pieces := [];
    } else {
      var init, last := chunks[..|chunks| - 1], chunks[|chunks| - 1];
      HarmlessBefore(Concat(init), last);
      var before := FittingAll(decode, init);
      pieces := FittingChunk(decode, AbsorbAll(LineParser(decode), BLANK, init), Concat(init), before, last);
    }
  }

  /**
   Overlong lines that cannot leave an event in the buffer do no harm: every way of cutting
   the stream captures the last usage of the terminated lines that fit.
   */
  lemma HarmlessLinesIgnored(decode: Decoder, chunks: seq<seq<byte>>)
    requires Harmless(Concat(chunks))
    ensures AbsorbAll(LineParser(decode), BLANK, chunks).usage
         == LastUsage(LineParser(decode), Fitting(Lines(Concat(chunks))))
  {
    var _ := FittingAll(decode, chunks);
  }

  // ---- The mode of a response -----------------------------------------------------------

  /** Some chunk makes the response a stream. */
  predicate TurnsToStream(chunks: seq<seq<byte>>) {
    exists i :: 0 <= i < |chunks| && LooksLikeStream(chunks[i])
  }

  predicate FieldAt(s: seq<byte>, o: nat) { o + |DATA| <= |s| && s[o..o + |DATA|] == DATA }

  predicate HasField(s: seq<byte>) { exists o: nat :: o <= |s| && FieldAt(s, o) }

  /** An event has the field name inside it. */
  lemma EventHasName(text: seq<byte>)
    requires LooksLikeStream(text)
    ensures HasField(text)
  {
    var t := TrimLeft(text);
    TrimLeftKeepsEnd(text);
    TrimRightKeepsFront(t);
    var o := |text| - |t|;
    assert DATA == TrimSpace(text)[..|DATA|] == t[..|DATA|] == text[o..o + |DATA|];
    assert FieldAt(text, o);
  }

  lemma FieldInContext(a: seq<byte>, text: seq<byte>, b: seq<byte>)
    requires HasField(text)
    ensures HasField(a + text + b)
  {
    var o: nat :| o <= |text| && FieldAt(text, o);
    assert (a + text + b)[|a| + o..|a| + o + |DATA|] == text[o..o + |DATA|];
    assert FieldAt(a + text + b, |a| + o);
  }

  lemma {:induction false} ChunkInside(chunks: seq<seq<byte>>, i: nat) returns (a: seq<byte>, b: seq<byte>)
    requires i < |chunks|
    ensures Concat(chunks) == a + chunks[i] + b
  {
    var n := |chunks| - 1;
    if i == n {
      a, b := Concat(chunks[..n]), [];
    } else {
      a, b := ChunkInside(chunks[..n], i);
      b := b + chunks[n];
    }
  }

  lemma TurnsOnlyOnField(chunks: seq<seq<byte>>)
    requires TurnsToStream(chunks)
    ensures HasField(Concat(chunks))
  {
    var i :| 0 <= i < |chunks| && LooksLikeStream(chunks[i]);
    EventHasName(chunks[i]);
    var a, b := ChunkInside(chunks, i);
    FieldInContext(a, chunks[i], b);
  }

  /** The stream, one byte a chunk. */
  function Bytes(s: seq<byte>): seq<seq<byte>> { seq(|s|, i requires 0 <= i < |s| => [s[i]]) }

  lemma {:induction false} BytesConcat(s: seq<byte>)
    ensures Concat(Bytes(s)) == s
  {
    if s != [] {
      var n := |s| - 1;
      BytesConcat(s[..n]);
      assert Bytes(s)[..n] == Bytes(s[..n]);
      assert s == s[..n] + [s[n]];
    }
  }

  lemma BytesDoNotTurn(s: seq<byte>)
    ensures !TurnsToStream(Bytes(s))
  {
    forall i | 0 <= i < |s| ensures !LooksLikeStream(Bytes(s)[i]) {
      var text := [s[i]];
      TrimLeftKeepsEnd(text);
      TrimRightKeepsFront(TrimLeft(text));
    }
  }

  lemma FieldTurns(s: seq<byte>, o: nat)
    requires FieldAt(s, o)
    ensures var chunks := [s[..o], DATA, s[o + |DATA|..]];
            Concat(chunks) == s && TurnsToStream(chunks)
  {
    var chunks := [s[..o], DATA, s[o + |DATA|..]];
    PlainEndsStay(DATA);
    assert LooksLikeStream(chunks[1]);
    assert chunks[..2] == [s[..o], DATA] && [s[..o], DATA][..1] == [s[..o]] && [s[..o]][..0] == [];
    assert Concat([s[..o]]) == s[..o];
    assert Concat([s[..o], DATA]) == s[..o] + DATA;
    assert s == s[..o] + DATA + s[o + |DATA|..];
  }

  /** Every way of cutting the response leaves it in the same mode. */
  ghost predicate ModeAgrees(s: seq<byte>) {
    forall chunks, chunks' :: Concat(chunks) == s && Concat(chunks') == s ==>
      TurnsToStream(chunks) == TurnsToStream(chunks')
  }

  lemma CutsDiffer(s: seq<byte>, chunks: seq<seq<byte>>, chunks': seq<seq<byte>>)
    requires Concat(chunks) == s && Concat(chunks') == s && TurnsToStream(chunks) && !TurnsToStream(chunks')
    ensures !ModeAgrees(s)
  {
  }

  lemma FieldDisagrees(s: seq<byte>, o: nat)
    requires FieldAt(s, o)
    ensures !ModeAgrees(s)
  {
    FieldTurns(s, o);
    BytesConcat(s);
    BytesDoNotTurn(s);
    CutsDiffer(s, [s[..o], DATA, s[o + |DATA|..]], Bytes(s));
  }

  lemma NoFieldNoTurn(s: seq<byte>, chunks: seq<seq<byte>>)
    requires !HasField(s) && Concat(chunks) == s
    ensures !TurnsToStream(chunks)
  {
    if TurnsToStream(chunks) {
      TurnsOnlyOnField(chunks);
      assert false;
    }
  }

  /**
   Exactly when the mode of a response does not depend on how it is cut: when `data:` occurs
   nowhere in it, as text of the body or as an event. Then it never turns into a stream.
   */
  lemma ModeAgreesIff(s: seq<byte>)
    ensures ModeAgrees(s) <==> !HasField(s)
    ensures !HasField(s) ==> forall chunks :: Concat(chunks) == s ==> !TurnsToStream(chunks)
  {
    if HasField(s) {
      var o: nat :| o <= |s| && FieldAt(s, o);
      FieldDisagrees(s, o);
    } else {
      forall chunks | Concat(chunks) == s ensures !TurnsToStream(chunks) {
        NoFieldNoTurn(s, chunks);
      }
    }
  }

  // ---- The response writer --------------------------------------------------------------

  class UsageWriter {
    const decode: Decoder
    var body: seq<byte>
    var line: seq<byte>
    var usage: Option<Tokens>
    var stream: bool
    var done: bool
    var recorded: seq<Tokens>

    constructor (decode: Decoder, stream: bool)
      ensures this.decode == decode && this.stream == stream && !done && recorded == []
      ensures body == [] && State() == BLANK && Valid()
    {
      this.decode, this.stream, done, recorded := decode, stream, false, [];
      body, line, usage := [], [], None;
    }

    ghost predicate Valid()
      reads this
    {
      !stream ==> State() == BLANK
    }

    function State(): Meter
      reads this
    {
      Meter(line, usage)
    }

    /** A chunk that looks like an event switches to stream mode for good; otherwise the body is buffered. */
    method CaptureChunk(p: seq<byte>)
      requires Valid()
      modifies this`body, this`line, this`usage, this`stream
      ensures Valid()
      ensures stream == (old(stream) || LooksLikeStream(p))
      ensures stream ==> State() == Absorb(LineParser(decode), old(State()), p)
      ensures body == if old(stream) then old(body) else if stream then [] else Append(old(body), p)
    {
      if !stream && LooksLikeStream(p) {
        stream := true;
        body := [];
      }
      if !stream {
        if |body| + |p| <= MAX_CAPTURE {
          body := body + p;
        }
        return;
      }
      CaptureStream(p);
    }

    /** The chunk cut at its LFs: each closes the line it ends, the remainder is kept. */
    method CaptureStream(p: seq<byte>)
      modifies this`line, this`usage
      ensures State() == Absorb(LineParser(decode), old(State()), p)
    {
      var rest := p;
      while rest != []
        invariant Absorb(LineParser(decode), State(), rest) == Absorb(LineParser(decode), old(State()), p)
        decreases |rest|
      {
        var i := FirstLF(rest);
        if i == |rest| {
          AppendLine(rest);
          return;
        }
        AppendLine(rest[..i]);
        EndLine();
        rest := rest[i + 1..];
      }
    }

    method AppendLine(p: seq<byte>)
      modifies this`line
      ensures line == Append(old(line), p)
    {
      if |line| + |p| <= MAX_CAPTURE {
        line := line + p;
      }
    }

    /** parseLine followed by resetting the buffer. */
    method EndLine()
      modifies this`line, this`usage
      ensures State() == Ended(LineParser(decode), old(State()))
    {
      var t := TrimSpace(line);
      if DATA <= t {
        var u := decode(TrimSpace(t[|DATA|..]));
        if u.Some? {
          usage := u;
        }
      }
      line := [];
    }

    /** Records at most one usage per response, however often it is called. */
    method Finish()
      requires Valid()
      modifies this`done, this`recorded
      ensures done
      ensures old(done) ==> recorded == old(recorded)
      ensures !old(done) ==>
                var u := if stream then usage else decode(body);
                recorded == old(recorded) + if u.Some? then [u.value] else []
    {
      if done {
        return;
      }
      done := true;
      var u := usage;
      if !stream {
        var whole := decode(body);
        if whole.Some? {
          u := whole;
        }
      }
      if u.Some? {
        recorded := recorded + [u.value];
      }
    }
  }

  /** What is kept of a body is the same however it is cut if and only if the body fits the buffer. */
  lemma BodyCutsAgreeIff(s: seq<byte>)
    ensures (forall chunks, chunks' :: Concat(chunks) == s && Concat(chunks') == s ==> Kept(chunks) == Kept(chunks'))
            <==> |s| <= MAX_CAPTURE
  {
    if |s| <= MAX_CAPTURE {
      forall chunks | Concat(chunks) == s ensures Kept(chunks) == s {
        KeptWhole(chunks);
      }
    } else {
      PrefixKept(s, 0);
      PrefixKept(s, 1);
      assert Kept([s[..0], s[0..]]) != Kept([s[..1], s[1..]]);
    }
  }

  /** Which of the chunks look like an event. */
  function Events(chunks: seq<seq<byte>>): (flags: seq<bool>)
    ensures |flags| == |chunks|
  {
    seq(|chunks|, k requires 0 <= k < |chunks| => LooksLikeStream(chunks[k]))
  }

  /** Position of the first flag, or the length. */
  function First(flags: seq<bool>): (i: nat)
    ensures i <= |flags|
    ensures forall k :: 0 <= k < i ==> !flags[k]
    ensures i < |flags| ==> flags[i]
  {
    if flags == [] || flags[0] then 0 else 1 + First(flags[1..])
  }

  /** The chunk from which on the response is in stream mode, or the number of chunks. */
  function StreamStart(stream: bool, chunks: seq<seq<byte>>): (i: nat)
    ensures i <= |chunks|
  {
    if stream then 0 else First(Events(chunks))
  }

  lemma AbsorbSnoc(parse: Parser, chunks: seq<seq<byte>>, start: nat, i: nat)
    requires start <= i < |chunks|
    ensures AbsorbAll(parse, BLANK, chunks[start..start]) == BLANK
    ensures AbsorbAll(parse, BLANK, chunks[start..i + 1])
         == Absorb(parse, AbsorbAll(parse, BLANK, chunks[start..i]), chunks[i])
  {
    assert chunks[start..i + 1][..i - start] == chunks[start..i];
  }

  lemma BodySnoc(chunks: seq<seq<byte>>, i: nat)
    requires i < |chunks|
    ensures Kept(chunks[..i + 1]) == Append(Kept(chunks[..i]), chunks[i])
  {
    assert chunks[..i + 1][..i] == chunks[..i];
  }

  /** What a writer holds after the first `i` chunks: the stream since `start`, or the body so far. */
  ghost predicate Holds(w: UsageWriter, chunks: seq<seq<byte>>, i: nat, start: nat, stream: bool)
    requires i <= |chunks|
    reads w
  {
    && w.Valid() && (w.stream <==> stream || i > start) && (stream ==> start == 0)
    && (w.stream ==> w.State() == AbsorbAll(LineParser(w.decode), BLANK, chunks[start..i]))
    && (!w.stream ==> w.body == Kept(chunks[..i]))
  }

  /** Up to the start, exactly the start looks like an event. */
  lemma EventAtStart(chunks: seq<seq<byte>>, i: nat)
    requires i < |chunks| && i <= StreamStart(false, chunks)
    ensures LooksLikeStream(chunks[i]) <==> i == StreamStart(false, chunks)
  {
    assert Events(chunks)[i] == LooksLikeStream(chunks[i]);
  }

  method CaptureNext(w: UsageWriter, chunks: seq<seq<byte>>, i: nat, ghost start: nat, ghost stream: bool)
    requires i < |chunks| && start <= |chunks| && Holds(w, chunks, i, start, stream)
    requires !stream && i <= start ==> (LooksLikeStream(chunks[i]) <==> i == start)
    modifies w`body, w`line, w`usage, w`stream
    ensures Holds(w, chunks, i + 1, start, stream)
  {
    if start <= i {
      AbsorbSnoc(LineParser(w.decode), chunks, start, i);
    }
    BodySnoc(chunks, i);
    w.CaptureChunk(chunks[i]);
  }

  /** Up to `start`, exactly the chunk at `start` looks like an event. */
  ghost predicate TurnsAt(chunks: seq<seq<byte>>, start: nat) {
    forall i :: 0 <= i < |chunks| && i <= start ==> (LooksLikeStream(chunks[i]) <==> i == start)
  }

  method CaptureAll(w: UsageWriter, chunks: seq<seq<byte>>, ghost start: nat, ghost stream: bool)
    requires start <= |chunks| && (!stream ==> TurnsAt(chunks, start)) && Holds(w, chunks, 0, start, stream)
    modifies w`body, w`line, w`usage, w`stream
    ensures Holds(w, chunks, |chunks|, start, stream)
  {
    var i := 0;
    while i < |chunks|
      invariant 0 <= i <= |chunks| && Holds(w, chunks, i, start, stream)
    {
      CaptureNext(w, chunks, i, start, stream);
      i := i + 1;
    }
  }

  /**
   A whole response through a writer, in whatever chunks: an event stream records the last
   usage of the terminated lines since stream mode began, any other response the usage of
   what is kept of its body, which is all of it if it fits, and either records at most one.
   */
  method Relay(decode: Decoder, stream: bool, chunks: seq<seq<byte>>) returns (w: UsageWriter)
    ensures fresh(w) && w.done && |w.recorded| <= 1
    ensures var start := StreamStart(stream, chunks);
            (stream || start < |chunks|) && ShortLines(Concat(chunks[start..])) ==>
              var u := LastUsage(LineParser(decode), Lines(Concat(chunks[start..])));
              w.recorded == if u.Some? then [u.value] else []
    ensures !stream && StreamStart(stream, chunks) == |chunks| ==>
              var u := decode(Kept(chunks));
              w.recorded == if u.Some? then [u.value] else []
    ensures |Concat(chunks)| <= MAX_CAPTURE ==> Kept(chunks) == Concat(chunks)
  {
    w := new UsageWriter(decode, stream);
    ghost var start := StreamStart(stream, chunks);
    assert chunks[..0] == [];
    if !stream {
      forall i | 0 <= i < |chunks| && i <= start ensures LooksLikeStream(chunks[i]) <==> i == start {
        EventAtStart(chunks, i);
      }
    }
    CaptureAll(w, chunks, start, stream);
    assert chunks[start..|chunks|] == chunks[start..] && chunks[..|chunks|] == chunks;
    if w.stream && ShortLines(Concat(chunks[start..])) {
      ChunkingIrrelevant(LineParser(decode), chunks[start..]);
    }
    if |Concat(chunks)| <= MAX_CAPTURE {
      KeptWhole(chunks);
    }
    w.Finish();
  }
}
