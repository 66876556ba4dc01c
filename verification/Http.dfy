/** The HTTP stream analyzer (analyzer/tcp/http.go): delimiter search over a growing buffer. */
module Http {
  import opened Bytes
  import opened Props
  import opened ByteBuffers
  import opened Lsm

  // Text handling of the Go library: fields of a line, the number of a status field, a trimmed
  // text, and the lower-cased trimmed text used as a key.
  datatype Tokens = Tokens(fields: bytes -> seq<bytes>, atoi: bytes -> int, trim: bytes -> bytes, key: bytes -> string)

  datatype Side = Request | Response

  datatype StepId = Line | Headers

  // The fields of one direction. A nil map is None.
  datatype Half = Half(m: Option<PropMap>)

  const CRLF: bytes := [13, 10]
  const BLANK: bytes := [13, 10, 13, 10]
  const HTTP: bytes := [72, 84, 84, 80, 47]
  const COLON: byte := 58

  // The start line without its CRLF.
  function ParseLine(t: Tokens, side: Side, line: bytes): Option<PropMap> {
    var f := t.fields(line);
    if side.Request? then
      if |f| != 3 || !(HTTP <= f[2]) then None
      else Some(map["method" := Text(f[0]), "path" := Text(f[1]), "version" := Text(f[2])])
    else
      if |f| < 2 || !(HTTP <= f[0]) || t.atoi(f[1]) == 0 then None
      else Some(map["version" := Text(f[0]), "status" := Int(t.atoi(f[1]))])
  }

  // bytes.Split.
  function SplitBy(b: bytes, sep: bytes): (parts: seq<bytes>)
    requires sep != []
    ensures |parts| > 0
    decreases |b|
  {
    match Index(b, sep)
    case None => [b]
    case Some(i) => [b[..i]] + SplitBy(b[i + |sep|..], sep)
  }

  function ParseHeaderLines(t: Tokens, lines: seq<bytes>, m: PropMap): Option<PropMap>
    decreases |lines|
  {
    if lines == [] then Some(m)
    else
      match Index(lines[0], [COLON])
      case None => None
      case Some(i) =>
        ParseHeaderLines(t, lines[1..], m[t.key(lines[0][..i]) := Text(t.trim(lines[0][i + 1..]))])
  }

  function Step(t: Tokens, side: Side, id: StepId, b: bytes, l: Half): Outcome<StepId, Half> {
    match id
    case Line =>
      (match Index(b, CRLF)
       case None => Outcome(Pause, b, l, [], false)
       case Some(i) =>
         match ParseLine(t, side, b[..i])
         case None => Outcome(Cancel, b[i + 2..], l, [], false)
         case Some(m) => Outcome(Next, b[i + 2..], Half(Some(m)), [], true))
    case Headers =>
      match Index(b, BLANK)
      case None => Outcome(Pause, b, l, [], false)
      case Some(i) =>
        match ParseHeaderLines(t, SplitBy(b[..i], CRLF), map[])
        case None => Outcome(Cancel, b[i + 4..], l, [], false)
        case Some(h) =>
          // A write into a nil map panics.
          if l.m.None? then Outcome(Crash, b[i + 4..], l, [], false)
          else Outcome(Next, b[i + 4..], Half(Some(l.m.value["headers" := Nested(h)])), [], true)
  }

  const STEPS: seq<StepId> := [Line, Headers]

  function Prog(t: Tokens, side: Side): Program<StepId, Half> {
    Program((id, b, l) => Step(t, side, id, b, l),
            (steps, index, l: Half) => steps == STEPS && index <= 2 && (index > 0 ==> l.m.Some?),
            (steps, index, len) => if index < 2 then 2 - index else 0,
            (l: Half) => l.m)
  }

  lemma {:induction false} StepAppend(t: Tokens, side: Side, id: StepId, b: bytes, x: bytes, l: Half)
    requires !Step(t, side, id, b, l).action.Pause?
    ensures var o := Step(t, side, id, b, l); Step(t, side, id, b + x, l) == o.(rest := o.rest + x)
  {
    var sep := if id.Line? then CRLF else BLANK;
    IndexAppend(b, sep, x);
    var i := Index(b, sep).value;
    TakeAppend(b, i, x);
    TakeAppend(b, i + |sep|, x);
  }

  lemma {:induction false} PausesClean(t: Tokens, side: Side, id: StepId, b: bytes, l: Half)
    requires Step(t, side, id, b, l).action.Pause?
    ensures Step(t, side, id, b, l) == Outcome(Pause, b, l, [], false)
  {
  }

  lemma {:induction false} ProgStable(t: Tokens, side: Side)
    ensures Stable(Prog(t, side))
  {
    var p := Prog(t, side);
    forall id, b, l | p.step(id, b, l).action.Pause?
      ensures p.step(id, b, l) == Outcome(Pause, b, l, [], false)
    {
      PausesClean(t, side, id, b, l);
    }
    hide Step;
    forall id, b, x, l | !p.step(id, b, l).action.Pause?
      ensures p.step(id, b + x, l) == p.step(id, b, l).(rest := p.step(id, b, l).rest + x)
    {
      StepAppend(t, side, id, b, x, l);
    }
  }

  lemma {:induction false} StepAdvances(t: Tokens, side: Side, m: Machine<StepId, Half>)
    ensures Advances(Prog(t, side), m) && Tells(Prog(t, side), m)
  {
    assert m.steps + [] == m.steps;
  }

  lemma {:induction false} ProgGood(t: Tokens, side: Side)
    ensures Good(Prog(t, side))
  {
    ProgStable(t, side);
    forall m ensures Advances(Prog(t, side), m) && Tells(Prog(t, side), m) {
      StepAdvances(t, side, m);
    }
  }

  // One turn of the loop of Run.
  lemma {:induction false} RunTurn(t: Tokens, side: Side, m: Machine<StepId, Half>)
    requires Wf(Prog(t, side), m) && m.index < |m.steps|
    ensures var p, o := Prog(t, side), Step(t, side, m.steps[m.index], m.buf, m.local);
            if Goes(o.action) then
              Wf(p, After(p, m)) && Rank(p, After(p, m)) < Rank(p, m) && Run(p, m) == Run(p, After(p, m))
            else Run(p, m) == After(p, m)
  {
    ProgGood(t, side);
    RunStep(Prog(t, side), m);
  }

  const INITIAL: Machine<StepId, Half> := Machine(STEPS, 0, false, false, false, [], Half(None))

  // The header step never writes into a nil map: the line step has made one before.
  lemma {:induction false} NeverCrashes(t: Tokens, side: Side, m: Machine<StepId, Half>)
    requires Wf(Prog(t, side), m) && !m.crashed
    ensures !Run(Prog(t, side), m).crashed
    decreases Rank(Prog(t, side), m)
  {
    var p := Prog(t, side);
    if m.index < |m.steps| {
      assert Advances(p, m);
      if Goes(p.step(m.steps[m.index], m.buf, m.local).action) {
        NeverCrashes(t, side, After(p, m));
      }
    }
  }

  // ---- A start line and header lines, sections 3 and 5 of RFC 9112 ----

  datatype Header = Header(name: bytes, value: bytes)
  {
    predicate Wf() { 58 !in name && 13 !in name && 13 !in value }

    function Encode(): (b: bytes)
      ensures 58 in b
    {
      assert (name + [58] + value)[|name|] == 58;
      name + [58] + value
    }
  }

  predicate HeadersWf(hs: seq<Header>) {
    hs != [] && forall h :: h in hs ==> h.Wf()
  }

  // A line that ends where its CRLF begins, and is not the empty one.
  predicate LineWf(line: bytes) { line != [] && 13 !in line }

  predicate LinesWf(ls: seq<bytes>) {
    ls != [] && forall l :: l in ls ==> LineWf(l)
  }

  function Joined(ls: seq<bytes>): (b: bytes)
    requires ls != []
  {
    if |ls| == 1 then ls[0] else ls[0] + [13, 10] + Joined(ls[1..])
  }

  function Lines(hs: seq<Header>): (r: seq<bytes>)
    ensures |r| == |hs| && forall i :: 0 <= i < |hs| ==> r[i] == hs[i].Encode()
  {
    seq(|hs|, i requires 0 <= i < |hs| => hs[i].Encode())
  }

  lemma {:induction false} HeaderLines(hs: seq<Header>)
    requires HeadersWf(hs)
    ensures LinesWf(Lines(hs))
  {
    forall l | l in Lines(hs) ensures LineWf(l) {
      var i :| 0 <= i < |hs| && l == hs[i].Encode();
      assert hs[i].Wf() && 58 in l;
    }
  }

  function PutHeaders(hs: seq<Header>): bytes
    requires hs != []
  {
    Joined(Lines(hs))
  }

  function HeaderFields(t: Tokens, hs: seq<Header>, m: PropMap): PropMap {
    if hs == [] then m else HeaderFields(t, hs[1..], m[t.key(hs[0].name) := Text(t.trim(hs[0].value))])
  }

  // The last header with this key.
  predicate LastWith(t: Tokens, hs: seq<Header>, k: string, i: nat) {
    i < |hs| && t.key(hs[i].name) == k && forall j :: i < j < |hs| ==> t.key(hs[j].name) != k
  }

  // The keys are those of the headers, and the last header with a key decides what stands there.
  ghost predicate HeadersRead(t: Tokens, hs: seq<Header>, m: PropMap) {
    && (forall k, i: nat :: LastWith(t, hs, k, i) ==> k in m)
    && (forall k :: k in m ==> exists i: nat :: LastWith(t, hs, k, i) && m[k] == Text(t.trim(hs[i].value)))
  }

  lemma {:induction false} HeadersMean(t: Tokens, hs: seq<Header>)
    ensures HeadersRead(t, hs, HeaderFields(t, hs, map[]))
  {
    if hs != [] {
      HeadersMean(t, hs[..|hs| - 1]);
      FieldsSnoc(t, hs, map[]);
      ReadMore(t, hs, HeaderFields(t, hs[..|hs| - 1], map[]));
    }
  }

  lemma {:induction false} LastSnoc(t: Tokens, hs: seq<Header>, k: string, i: nat)
    requires hs != []
    ensures var n := |hs| - 1;
            LastWith(t, hs, k, i) <==> if k == t.key(hs[n].name) then i == n else LastWith(t, hs[..n], k, i)
  {
  }

  lemma {:induction false} ReadMore(t: Tokens, hs: seq<Header>, m: PropMap)
    requires hs != [] && HeadersRead(t, hs[..|hs| - 1], m)
    ensures var h := hs[|hs| - 1]; HeadersRead(t, hs, m[t.key(h.name) := Text(t.trim(h.value))])
  {
    var n := |hs| - 1;
    var front, m1 := hs[..n], m[t.key(hs[n].name) := Text(t.trim(hs[n].value))];
    forall k, i: nat ensures LastWith(t, hs, k, i) <==> if k == t.key(hs[n].name) then i == n
             else LastWith(t, front, k, i) {
      LastSnoc(t, hs, k, i);
    }
    forall k, i: nat ensures LastWith(t, front, k, i) ==> i < n && front[i] == hs[i] {
    }
    hide LastWith;
    forall k | k in m1 ensures exists i: nat :: LastWith(t, hs, k, i) && m1[k] == Text(t.trim(hs[i].value)) {
      if k == t.key(hs[n].name) {
        assert LastWith(t, hs, k, n);
      } else {
        var i: nat :| LastWith(t, front, k, i) && m[k] == Text(t.trim(front[i].value));
        assert LastWith(t, hs, k, i);
      }
    }
  }

  lemma {:induction false} FieldsSnoc(t: Tokens, hs: seq<Header>, m: PropMap)
    requires hs != []
    ensures var n := |hs| - 1;
            HeaderFields(t, hs, m) == HeaderFields(t, hs[..n], m)[t.key(hs[n].name) := Text(t.trim(hs[n].value))]
  {
    if |hs| > 1 {
      FieldsSnoc(t, hs[1..], m[t.key(hs[0].name) := Text(t.trim(hs[0].value))]);
      assert hs[1..][..|hs| - 2] == hs[..|hs| - 1][1..];
    }
  }

  lemma {:induction false} JoinedAt(a: bytes, h: bytes, x: bytes)
    ensures (a + CRLF + h) + BLANK + x == a + (CRLF + (h + BLANK + x))
  {
  }

  // The blank line is found right behind the lines.
  lemma {:induction false} BlankBehindLines(ls: seq<bytes>, x: bytes)
    requires LinesWf(ls)
    ensures Index(Joined(ls) + BLANK + x, BLANK) == Some(|Joined(ls)|)
    decreases |ls|
  {
    assert LineWf(ls[0]);
    if |ls| == 1 {
      IndexOfFirst(ls[0], BLANK, x);
    } else {
      BlankBehindLines(ls[1..], x);
      BlankBehindCrlf(ls[1..], x);
      JoinedAt(ls[0], Joined(ls[1..]), x);
      hide Index;
      IndexShift(ls[0], CRLF + (Joined(ls[1..]) + BLANK + x), BLANK);
    }
  }

  // The CRLF in front of a line is not the start of a blank line.
  lemma {:induction false} BlankBehindCrlf(ls: seq<bytes>, x: bytes)
    requires LinesWf(ls)
    requires Index(Joined(ls) + BLANK + x, BLANK) == Some(|Joined(ls)|)
    ensures Index(CRLF + (Joined(ls) + BLANK + x), BLANK) == Some(2 + |Joined(ls)|)
  {
    var rest := Joined(ls) + BLANK + x;
    assert LineWf(ls[0]) && rest[0] == ls[0][0];
    CrlfShifts(rest, |Joined(ls)|);
  }

  lemma {:induction false} CrlfShifts(rest: bytes, n: nat)
    requires rest != [] && rest[0] != 13 && Index(rest, BLANK) == Some(n)
    ensures Index(CRLF + rest, BLANK) == Some(n + 2)
  {
    var b := CRLF + rest;
    assert b[n + 2..n + 6] == rest[n..n + 4] == BLANK;
    forall j | 0 <= j < n + 2 ensures !OccursAt(b, BLANK, j) {
      if j >= 2 {
        assert !OccursAt(rest, BLANK, j - 2);
        assert j + 4 <= |b| ==> b[j..j + 4] == rest[j - 2..j + 2];
      } else if j + 4 <= |b| {
        assert b[j..j + 4][2] == b[j + 2] && b[j..j + 4][0] == b[j];
      }
    }
    assert OccursAt(b, BLANK, n + 2);
  }

  lemma {:induction false} SplitJoined(ls: seq<bytes>)
    requires LinesWf(ls)
    ensures SplitBy(Joined(ls), CRLF) == ls
    decreases |ls|
  {
    assert LineWf(ls[0]);
    if |ls| == 1 {
      IndexShift(ls[0], [], CRLF);
      assert ls[0] + [] == ls[0];
    } else {
      IndexOfFirst(ls[0], CRLF, Joined(ls[1..]));
      SplitJoined(ls[1..]);
    }
  }

  lemma {:induction false} ParseHeaderLine(t: Tokens, h: Header, lines: seq<bytes>, m: PropMap)
    requires h.Wf() && lines != [] && lines[0] == h.Encode()
    ensures ParseHeaderLines(t, lines, m) ==
              ParseHeaderLines(t, lines[1..], m[t.key(h.name) := Text(t.trim(h.value))])
  {
    IndexOfFirst(h.name, [COLON], h.value);
  }

  lemma {:induction false} ParseAllHeaders(t: Tokens, hs: seq<Header>, m: PropMap)
    requires forall h :: h in hs ==> h.Wf()
    ensures ParseHeaderLines(t, Lines(hs), m) == Some(HeaderFields(t, hs, m))
  {
    if hs != [] {
      ParseHeaderLine(t, hs[0], Lines(hs), m);
      assert Lines(hs)[1..] == Lines(hs[1..]);
      ParseAllHeaders(t, hs[1..], m[t.key(hs[0].name) := Text(t.trim(hs[0].value))]);
    }
  }

  lemma {:induction false} SplitHeaders(t: Tokens, hs: seq<Header>, m: PropMap)
    requires HeadersWf(hs)
    ensures ParseHeaderLines(t, SplitBy(PutHeaders(hs), CRLF), m) == Some(HeaderFields(t, hs, m))
  {
    HeaderLines(hs);
    SplitJoined(Lines(hs));
    ParseAllHeaders(t, hs, m);
  }

  // One line without a colon spoils them all.
  lemma {:induction false} ParseBadLine(t: Tokens, ls: seq<bytes>, m: PropMap)
    requires exists l :: l in ls && 58 !in l
    ensures ParseHeaderLines(t, ls, m).None?
  {
    if Index(ls[0], [COLON]).Some? {
      var i := Index(ls[0], [COLON]).value;
      assert ls[0][i] == ls[0][i..i + 1][0] == 58;
      ParseBadLine(t, ls[1..], m[t.key(ls[0][..i]) := Text(t.trim(ls[0][i + 1..]))]);
    }
  }

  function Message(line: bytes, hs: seq<Header>, x: bytes): bytes
    requires hs != []
  {
    line + [13, 10] + (PutHeaders(hs) + [13, 10, 13, 10] + x)
  }

  lemma {:induction false} StepLine(t: Tokens, side: Side, line: bytes, y: bytes, l: Half)
    requires 13 !in line && ParseLine(t, side, line).Some?
    ensures Step(t, side, Line, line + CRLF + y, l) == Outcome(Next, y, Half(ParseLine(t, side, line)), [], true)
  {
    IndexOfFirst(line, CRLF, y);
  }

  lemma {:induction false} StepHeaders(t: Tokens, side: Side, hs: seq<Header>, x: bytes, l: Half)
    requires HeadersWf(hs) && l.m.Some?
    ensures Step(t, side, Headers, PutHeaders(hs) + BLANK + x, l) ==
              Outcome(Next, x, Half(Some(l.m.value["headers" := Nested(HeaderFields(t, hs, map[]))])), [], true)
  {
    HeaderLines(hs);
    BlankBehindLines(Lines(hs), x);
    SplitHeaders(t, hs, map[]);
    var b, n := PutHeaders(hs) + BLANK + x, |PutHeaders(hs)|;
    assert b[..n] == PutHeaders(hs) && b[n + 4..] == x;
  }

  lemma {:induction false} RunMessage(t: Tokens, side: Side, line: bytes, hs: seq<Header>, x: bytes)
    requires 13 !in line && ParseLine(t, side, line).Some? && HeadersWf(hs)
    ensures var m := ParseLine(t, side, line).value["headers" := Nested(HeaderFields(t, hs, map[]))];
            Run(Prog(t, side), INITIAL.Push(Message(line, hs, x))) ==
              INITIAL.(index := 2, updated := true, buf := x, local := Half(Some(m)))
  {
    ProgGood(t, side);
    var m0 := INITIAL.Push(Message(line, hs, x));
    var y := PutHeaders(hs) + BLANK + x;
    var l := Half(ParseLine(t, side, line));
    assert m0.buf == line + CRLF + y;
    StepLine(t, side, line, y, m0.local);
    assert STEPS + [] == STEPS;
    RunNext(Prog(t, side), m0, Outcome(Next, y, l, [], true));
    var m1 := m0.(index := 1, updated := true, buf := y, local := l);
    StepHeaders(t, side, hs, x, l);
    RunNext(Prog(t, side), m1,
            Outcome(Next, x, Half(Some(l.m.value["headers" := Nested(HeaderFields(t, hs, map[]))])), [], true));
  }

  lemma {:induction false} MessageThroughMachine(t: Tokens, side: Side, line: bytes, hs: seq<Header>, x: bytes,
      chunks: seq<bytes>)
    requires 13 !in line && ParseLine(t, side, line).Some? && HeadersWf(hs)
    requires Flatten(chunks) == Message(line, hs, x)
    ensures var m := ParseLine(t, side, line).value["headers" := Nested(HeaderFields(t, hs, map[]))];
            FeedAll(Prog(t, side), INITIAL, chunks, None) ==
              Fed(INITIAL.(index := 2, buf := x, local := Half(Some(m))), [], Some(m))
  {
    RunMessage(t, side, line, hs, x);
    ProgGood(t, side);
    AnyCut(Prog(t, side), INITIAL, chunks, Run(Prog(t, side), INITIAL.Push(Message(line, hs, x))));
  }

  // HTTP ROUND TRIP. A request line of three fields, the last of which begins with "HTTP/", and at
  // least one header, cut anywhere and followed by anything, yield the three fields in their order
  // and every header; what follows stays in the buffer.
  lemma {:induction false} RequestThroughMachine(t: Tokens, line: bytes, hs: seq<Header>, x: bytes, chunks: seq<bytes>)
    requires 13 !in line && HeadersWf(hs)
    requires var f := t.fields(line); |f| == 3 && [72, 84, 84, 80, 47] <= f[2]
    requires Flatten(chunks) == line + [13, 10] + (Joined(Lines(hs)) + [13, 10, 13, 10] + x)
    ensures var f, headers := t.fields(line), HeaderFields(t, hs, map[]);
            var m := map["method" := Text(f[0]), "path" := Text(f[1]), "version" := Text(f[2]),
                         "headers" := Nested(headers)];
            && HeadersRead(t, hs, headers)
            && FeedAll(Prog(t, Request), INITIAL, chunks, None) ==
                 Fed(INITIAL.(index := 2, buf := x, local := Half(Some(m))), [], Some(m))
  {
    var f := t.fields(line);
    MessageThroughMachine(t, Request, line, hs, x, chunks);
    HeadersMean(t, hs);
  }

  // The same for a status line: two fields or more, the first of which begins with "HTTP/" while
  // the second is a number other than zero.
  lemma {:induction false} ResponseThroughMachine(t: Tokens, line: bytes, hs: seq<Header>, x: bytes, chunks: seq<bytes>)
    requires 13 !in line && HeadersWf(hs)
    requires var f := t.fields(line); |f| >= 2 && [72, 84, 84, 80, 47] <= f[0] && t.atoi(f[1]) != 0
    requires Flatten(chunks) == line + [13, 10] + (Joined(Lines(hs)) + [13, 10, 13, 10] + x)
    ensures var f, headers := t.fields(line), HeaderFields(t, hs, map[]);
            var m := map["version" := Text(f[0]), "status" := Int(t.atoi(f[1])), "headers" := Nested(headers)];
            && HeadersRead(t, hs, headers)
            && FeedAll(Prog(t, Response), INITIAL, chunks, None) ==
                 Fed(INITIAL.(index := 2, buf := x, local := Half(Some(m))), [], Some(m))
  {
    var f := t.fields(line);
    MessageThroughMachine(t, Response, line, hs, x, chunks);
    HeadersMean(t, hs);
  }

  // ---- Lines that are not accepted ----

  // What a start line must be.
  predicate IsStart(t: Tokens, side: Side, line: bytes) {
    var f := t.fields(line);
    if side.Request? then |f| == 3 && [72, 84, 84, 80, 47] <= f[2]
    else |f| >= 2 && [72, 84, 84, 80, 47] <= f[0] && t.atoi(f[1]) != 0
  }

  // The line step on a line with its CRLF.
  lemma {:induction false} StepStart(t: Tokens, side: Side, line: bytes, y: bytes, l: Half)
    requires 13 !in line
    ensures Step(t, side, Line, line + [13, 10] + y, l) ==
              if IsStart(t, side, line) then Outcome(Next, y, Half(ParseLine(t, side, line)), [], true)
              else Outcome(Cancel, y, l, [], false)
  {
    IndexOfFirst(line, CRLF, y);
    var b := line + CRLF + y;
    assert b[..|line|] == line && b[|line| + 2..] == y;
  }

  // Whatever comes behind it, the header step keeps the fields of the line.
  lemma {:induction false} HeadersKeepLine(t: Tokens, side: Side, m: Machine<StepId, Half>)
    requires Wf(Prog(t, side), m) && m.index == 1 && !m.crashed && m.updated
    ensures var r := Run(Prog(t, side), m);
            && !r.crashed && r.updated && r.index >= 1 && r.local.m.Some?
            && r.local.m.value - {"headers"} == m.local.m.value - {"headers"}
  {
    hide ParseHeaderLines, SplitBy, Index;
    RunTurn(t, side, m);
    var o := Step(t, side, Headers, m.buf, m.local);
    assert o.local.m.value - {"headers"} == m.local.m.value - {"headers"};
  }

  lemma {:induction false} RunStart(t: Tokens, side: Side, line: bytes, y: bytes)
    requires 13 !in line
    ensures var r := Run(Prog(t, side), INITIAL.Push(line + [13, 10] + y));
            && !r.crashed
            && (IsStart(t, side, line) ==>
                  r.index >= 1 && r.updated && r.local.m.Some? &&
                  r.local.m.value - {"headers"} == ParseLine(t, side, line).value - {"headers"})
            && (!IsStart(t, side, line) ==> r.index == 0 && r.cancelled && !r.updated)
  {
    var p, m0 := Prog(t, side), INITIAL.Push(line + [13, 10] + y);
    ProgGood(t, side);
    assert STEPS + [] == STEPS;
    assert m0.buf == line + [13, 10] + y;
    StepStart(t, side, line, y, m0.local);
    if IsStart(t, side, line) {
      var l := Half(ParseLine(t, side, line));
      hide Step;
      RunNext(p, m0, Outcome(Next, y, l, [], true));
      HeadersKeepLine(t, side, m0.(index := 1, updated := true, buf := y, local := l));
    } else {
      hide Step;
      RunCancels(p, m0);
    }
  }

  // THE START LINE DECIDES, whatever follows it and however it is cut: its fields are published
  // exactly when it is one, and otherwise the machine gives up and publishes nothing.
  lemma {:induction false} StartLineDecides(t: Tokens, side: Side, line: bytes, y: bytes, chunks: seq<bytes>)
    requires 13 !in line && Flatten(chunks) == line + [13, 10] + y
    ensures var f, fields := FeedAll(Prog(t, side), INITIAL, chunks, None), t.fields(line);
            if IsStart(t, side, line) then
              && f.m.index >= 1 && f.published.Some?
              && f.published.value - {"headers"} ==
                   if side.Request?
                   then map["method" := Text(fields[0]), "path" := Text(fields[1]), "version" := Text(fields[2])]
                   else map["version" := Text(fields[0]), "status" := Int(t.atoi(fields[1]))]
            else f.m.cancelled && f.m.index == 0 && f.published == None
  {
    var p := Prog(t, side);
    RunStart(t, side, line, y);
    ProgGood(t, side);
    AnyCutEnds(p, INITIAL, chunks, Run(p, INITIAL.Push(Flatten(chunks))));
    ChunkIndependence(p, INITIAL, chunks, None);
    hide Run, FeedAll;
    assert INITIAL.Fresh() == INITIAL;
  }

  // A LINE WITHOUT A COLON among the header lines: the machine gives up and has published the start
  // line alone.
  lemma {:induction false} BadHeaderCancels(t: Tokens, side: Side, line: bytes, ls: seq<bytes>, x: bytes,
      chunks: seq<bytes>)
    requires 13 !in line && IsStart(t, side, line) && LinesWf(ls) && exists l :: l in ls && 58 !in l
    requires Flatten(chunks) == line + [13, 10] + (Joined(ls) + [13, 10, 13, 10] + x)
    ensures var f := FeedAll(Prog(t, side), INITIAL, chunks, None);
            f.m.cancelled && f.m.index == 1 && f.published == ParseLine(t, side, line)
  {
    var p, y := Prog(t, side), Joined(ls) + BLANK + x;
    ProgGood(t, side);
    RunBadHeader(t, side, line, ls, x);
    AnyCutEnds(p, INITIAL, chunks, Run(p, INITIAL.Push(Flatten(chunks))));
    ChunkIndependence(p, INITIAL, chunks, None);
    hide Run, FeedAll;
    assert INITIAL.Fresh() == INITIAL;
  }

  lemma {:induction false} StepBadHeader(t: Tokens, side: Side, ls: seq<bytes>, x: bytes, l: Half)
    requires LinesWf(ls) && exists l :: l in ls && 58 !in l
    ensures Step(t, side, Headers, Joined(ls) + BLANK + x, l) == Outcome(Cancel, x, l, [], false)
  {
    BlankBehindLines(ls, x);
    SplitJoined(ls);
    ParseBadLine(t, ls, map[]);
    hide SplitBy, ParseHeaderLines, Index;
    var b, n := Joined(ls) + BLANK + x, |Joined(ls)|;
    assert b[..n] == Joined(ls) && b[n + 4..] == x;
  }

  lemma {:induction false} RunBadHeader(t: Tokens, side: Side, line: bytes, ls: seq<bytes>, x: bytes)
    requires 13 !in line && IsStart(t, side, line) && LinesWf(ls) && exists l :: l in ls && 58 !in l
    ensures var r := Run(Prog(t, side), INITIAL.Push(line + CRLF + (Joined(ls) + BLANK + x)));
            && r.cancelled && !r.crashed && r.index == 1 && r.updated && r.local == Half(ParseLine(t, side, line))
  {
    var p, y := Prog(t, side), Joined(ls) + BLANK + x;
    var m0 := INITIAL.Push(line + CRLF + y);
    var l := Half(ParseLine(t, side, line));
    ProgGood(t, side);
    assert m0.buf == line + CRLF + y;
    StepStart(t, side, line, y, m0.local);
    StepBadHeader(t, side, ls, x, l);
    assert STEPS + [] == STEPS;
    hide Step, ParseLine;
    RunNext(p, m0, Outcome(Next, y, l, [], true));
    RunCancels(p, m0.(index := 1, updated := true, buf := y, local := l));
  }

  // ---- Messages with or without headers ----

  // Every header line with its CRLF, and the CRLF of the blank line.
  function PutLines(hs: seq<Header>): bytes {
    if hs == [] then [13, 10] else hs[0].Encode() + [13, 10] + PutLines(hs[1..])
  }

  // A message as section 2.1 of RFC 9112 has it: any number of headers.
  function Wire(line: bytes, hs: seq<Header>, x: bytes): bytes {
    line + [13, 10] + (PutLines(hs) + x)
  }

  lemma {:induction false} LinesOfHeaders(hs: seq<Header>)
    requires hs != []
    ensures PutLines(hs) == PutHeaders(hs) + BLANK
    decreases |hs|
  {
    if |hs| == 1 {
      assert PutLines(hs[1..]) == CRLF;
      assert CRLF + CRLF == BLANK;
      Assoc(hs[0].Encode(), CRLF, CRLF);
    } else {
      LinesOfHeaders(hs[1..]);
      assert Lines(hs)[1..] == Lines(hs[1..]);
      Assoc(hs[0].Encode() + CRLF, PutHeaders(hs[1..]), BLANK);
    }
  }

  // The first line of a block that begins with CRLF is empty, and no header.
  lemma {:induction false} EmptyFirstLine(t: Tokens, b: bytes, m: PropMap)
    requires b == [] || (|b| >= 2 && b[..2] == CRLF)
    ensures ParseHeaderLines(t, SplitBy(b, CRLF), m).None?
  {
    if b != [] {
      assert OccursAt(b, CRLF, 0);
    }
    assert SplitBy(b, CRLF)[0] == [];
    assert Index([], [COLON]).None?;
  }

  // Behind a start line without headers the header step cancels when it sees a blank line
  // further on, and waits otherwise.
  lemma {:induction false} StepNoHeaders(t: Tokens, side: Side, x: bytes, l: Half)
    ensures var o := Step(t, side, Headers, CRLF + x, l);
            && o.local == l && o.appended == [] && !o.updated
            && (if Index(CRLF + x, BLANK).Some? then o.action == Cancel else o.action == Pause && o.rest == CRLF + x)
  {
    var b := CRLF + x;
    if Index(b, BLANK).Some? {
      var i := Index(b, BLANK).value;
      NotAtOne(x, i);
      EmptyFirstLine(t, b[..i], map[]);
    }
  }

  // A blank line does not begin with the second byte of a CRLF.
  lemma {:induction false} NotAtOne(x: bytes, i: nat)
    requires Index(CRLF + x, BLANK) == Some(i)
    ensures i != 1 && (i >= 2 ==> (CRLF + x)[..i][..2] == CRLF)
  {
    var b := CRLF + x;
    assert b[i] == b[i..i + 4][0] == 13;
  }

  lemma {:induction false} RunNoHeaders(t: Tokens, side: Side, line: bytes, x: bytes)
    requires 13 !in line && ParseLine(t, side, line).Some?
    ensures var r := Run(Prog(t, side), INITIAL.Push(line + CRLF + (CRLF + x)));
            && r.index == 1 && r.local == Half(ParseLine(t, side, line)) && r.updated && !r.crashed
            && r.cancelled == Index(CRLF + x, BLANK).Some?
  {
    ProgGood(t, side);
    var p, y := Prog(t, side), CRLF + x;
    var m0 := INITIAL.Push(line + CRLF + y);
    var l := Half(ParseLine(t, side, line));
    assert m0.buf == line + CRLF + y;
    StepLine(t, side, line, y, m0.local);
    assert STEPS + [] == STEPS;
    RunNext(p, m0, Outcome(Next, y, l, [], true));
    var m1 := m0.(index := 1, updated := true, buf := y, local := l);
    StepNoHeaders(t, side, x, l);
    RunStep(p, m1);
  }

  // NO HEADER, NO END. Whatever follows a start line without headers, and however it is cut, the
  // headers never come: the machine stays at the header step with the fields of the line alone,
  // and cancels if and only if there is a blank line further on.
  lemma {:induction false} NoHeaderNoEnd(t: Tokens, side: Side, line: bytes, x: bytes, chunks: seq<bytes>)
    requires 13 !in line && ParseLine(t, side, line).Some?
    requires Flatten(chunks) == line + BLANK + x
    ensures var f := FeedAll(Prog(t, side), INITIAL, chunks, None);
            && f.m.index == 1 && f.m.local == Half(ParseLine(t, side, line)) && !f.m.crashed
            && f.published == ParseLine(t, side, line)
            && (f.m.cancelled <==> Index(CRLF + x, BLANK).Some?)
  {
    var p := Prog(t, side);
    assert line + BLANK + x == line + CRLF + (CRLF + x);
    RunNoHeaders(t, side, line, x);
    ProgGood(t, side);
    AnyCutEnds(p, INITIAL, chunks, Run(p, INITIAL.Push(Flatten(chunks))));
    ChunkIndependence(p, INITIAL, chunks, None);
  }

  // READ TO ITS END IF AND ONLY IF IT HAS A HEADER, for every message, whatever follows it and
  // however it is cut.
  lemma {:induction false} EndsIffHeaders(t: Tokens, side: Side, line: bytes, hs: seq<Header>, x: bytes,
      chunks: seq<bytes>)
    requires 13 !in line && ParseLine(t, side, line).Some? && forall h :: h in hs ==> h.Wf()
    requires Flatten(chunks) == Wire(line, hs, x)
    ensures FeedAll(Prog(t, side), INITIAL, chunks, None).m.index == 2 <==> hs != []
  {
    if hs == [] {
      assert Wire(line, hs, x) == line + BLANK + x;
      NoHeaderNoEnd(t, side, line, x, chunks);
    } else {
      LinesOfHeaders(hs);
      assert Wire(line, hs, x) == Message(line, hs, x);
      MessageThroughMachine(t, side, line, hs, x, chunks);
    }
  }

  // ---- The stream ----

  class HttpStream {
    const t: Tokens

    const reqBuf: ByteBuffer
    var reqMap: Option<PropMap>
    var reqUpdated: bool
    const reqLSM: LinearStateMachine<StepId>
    var reqDone: bool

    const respBuf: ByteBuffer
    var respMap: Option<PropMap>
    var respUpdated: bool
    const respLSM: LinearStateMachine<StepId>
    var respDone: bool

    ghost predicate Valid()
      reads this, reqLSM, respLSM
    {
      && reqBuf != respBuf && reqLSM != respLSM
      && reqLSM.Steps == STEPS && respLSM.Steps == STEPS && reqLSM.index <= 2 && respLSM.index <= 2
      && (reqLSM.index > 0 ==> reqMap.Some?) && (respLSM.index > 0 ==> respMap.Some?)
      && (!reqLSM.cancelled ==> reqDone == (reqLSM.index == 2))
      && (!respLSM.cancelled ==> respDone == (respLSM.index == 2))
    }

    constructor (t: Tokens)
      ensures Valid() && this.t == t && Req() == INITIAL && Resp() == INITIAL
      ensures fresh(reqBuf) && fresh(respBuf) && fresh(reqLSM) && fresh(respLSM)
    {
      this.t := t;
      reqBuf := new ByteBuffer([]);
      respBuf := new ByteBuffer([]);
      reqLSM := new LinearStateMachine(STEPS);
      respLSM := new LinearStateMachine(STEPS);
      reqMap, reqUpdated, reqDone := None, false, false;
      respMap, respUpdated, respDone := None, false, false;
    }

    // The loop over the header lines of one block.
    method ParseHeaders(buf: ByteBuffer) returns (a: Action, headerMap: PropMap)
      modifies buf
      ensures a == (match Index(old(buf.Buf), BLANK)
                    case None => Pause
                    case Some(i) =>
                      if ParseHeaderLines(t, SplitBy(old(buf.Buf)[..i], CRLF), map[]).None? then Cancel else Next)
      ensures a.Pause? ==> buf.Buf == old(buf.Buf)
      ensures !a.Pause? ==> buf.Buf == old(buf.Buf)[Index(old(buf.Buf), BLANK).value + 4..]
      ensures a.Next? ==>
                Some(headerMap) == ParseHeaderLines(t, SplitBy(old(buf.Buf)[..Index(old(buf.Buf), BLANK).value],
                  CRLF), map[])
    {
      headerMap := map[];
      var headers, ok := buf.GetUntil(BLANK, true, true);
      if !ok { return Pause, headerMap; }
      var block := headers[..|headers| - 4];
      assert block == old(buf.Buf)[..Index(old(buf.Buf), BLANK).value];
      var lines := SplitBy(block, CRLF);
      for i := 0 to |lines|
        invariant ParseHeaderLines(t, lines[i..], headerMap) == ParseHeaderLines(t, lines, map[])
      {
        var line := lines[i];
        assert lines[i..][0] == line && lines[i..][1..] == lines[i + 1..];
        var colon := Index(line, [COLON]);
        if colon.None? { return Cancel, headerMap; }
        headerMap := headerMap[t.key(line[..colon.value]) := Text(t.trim(line[colon.value + 1..]))];
      }
      assert lines[|lines|..] == [];
      return Next, headerMap;
    }

    method ParseRequestLine() returns (a: Action)
      modifies reqBuf, this`reqMap, this`reqUpdated
      ensures var o := Step(t, Request, Line, old(reqBuf.Buf), old(Half(reqMap)));
              && Outcome(a, reqBuf.Buf, Half(reqMap), [], o.updated) == o
              && reqUpdated == (old(reqUpdated) || o.updated)
    {
      var line, ok := reqBuf.GetUntil(CRLF, true, true);
      if !ok { return Pause; }
      assert line[..|line| - 2] == old(reqBuf.Buf)[..Index(old(reqBuf.Buf), CRLF).value];
      var fields := t.fields(line[..|line| - 2]);
      if |fields| != 3 { return Cancel; }
      var version := fields[2];
      if !(HTTP <= version) { return Cancel; }
      reqMap := Some(map["method" := Text(fields[0]), "path" := Text(fields[1]), "version" := Text(version)]);
      reqUpdated := true;
      return Next;
    }

    method ParseResponseLine() returns (a: Action)
      modifies respBuf, this`respMap, this`respUpdated
      ensures var o := Step(t, Response, Line, old(respBuf.Buf), old(Half(respMap)));
              && Outcome(a, respBuf.Buf, Half(respMap), [], o.updated) == o
              && respUpdated == (old(respUpdated) || o.updated)
    {
      var line, ok := respBuf.GetUntil(CRLF, true, true);
      if !ok { return Pause; }
      assert line[..|line| - 2] == old(respBuf.Buf)[..Index(old(respBuf.Buf), CRLF).value];
      var fields := t.fields(line[..|line| - 2]);
      if |fields| < 2 { return Cancel; }
      var version := fields[0];
      var status := t.atoi(fields[1]);
      if !(HTTP <= version) || status == 0 { return Cancel; }
      respMap := Some(map["version" := Text(version), "status" := Int(status)]);
      respUpdated := true;
      return Next;
    }

    ghost function Req(): Machine<StepId, Half>
      reads `reqMap, `reqUpdated, reqBuf, reqLSM
    {
      Machine(reqLSM.Steps, reqLSM.index, reqLSM.cancelled, false, reqUpdated, reqBuf.Buf, Half(reqMap))
    }

    method ParseRequestHeaders() returns (a: Action)
      requires reqMap.Some?
      modifies reqBuf, this`reqMap, this`reqUpdated
      ensures var o := Step(t, Request, Headers, old(reqBuf.Buf), old(Half(reqMap)));
              && Outcome(a, reqBuf.Buf, Half(reqMap), [], o.updated) == o
              && reqUpdated == (old(reqUpdated) || o.updated)
    {
      var headerMap: PropMap;
      a, headerMap := ParseHeaders(reqBuf);
      if a == Next {
        reqMap := Some(reqMap.value["headers" := Nested(headerMap)]);
        reqUpdated := true;
      }
    }

    // One turn of the loop of reqLSM.Run().
    method TurnReq() returns (stop: bool, cancelled: bool, done: bool)
      requires reqBuf != respBuf && reqLSM != respLSM
      requires reqLSM.Steps == STEPS && reqLSM.index < 2 && (reqLSM.index > 0 ==> reqMap.Some?)
      modifies reqBuf, reqLSM, this`reqMap, this`reqUpdated
      ensures Req() == After(Prog(t, Request), old(Req()))
      ensures stop == !Goes(Step(t, Request, old(STEPS[reqLSM.index]), old(reqBuf.Buf), old(Half(reqMap))).action)
      ensures stop && !old(reqLSM.cancelled) ==> cancelled == done == reqLSM.cancelled
    {
      assert STEPS + [] == STEPS;
      var action: Action;
      match reqLSM.Steps[reqLSM.index] {
        case Line => action := ParseRequestLine();
        case Headers => action := ParseRequestHeaders();
      }
      stop, cancelled, done := reqLSM.Answer(action);
    }

    // reqLSM.Run().
    method RunReq() returns (cancelled: bool, done: bool)
      requires Valid()
      modifies reqBuf, reqLSM, this`reqMap, this`reqUpdated
      ensures Req() == Run(Prog(t, Request), old(Req()))
      ensures reqLSM.Steps == STEPS && reqLSM.index <= 2 && (reqLSM.index > 0 ==> reqMap.Some?)
      ensures !old(reqLSM.cancelled) ==>
                cancelled == reqLSM.cancelled && done == (cancelled || reqLSM.index == 2)
    {
      hide ParseHeaderLines, SplitBy, ParseLine, Index;
      ghost var p := Prog(t, Request);
      done, cancelled := reqLSM.Finished();
      if done { return; }
      while reqLSM.index < |reqLSM.Steps|
        invariant Wf(p, Req()) && Run(p, Req()) == Run(p, old(Req()))
        invariant reqLSM.cancelled == old(reqLSM.cancelled)
        decreases Rank(p, Req())
      {
        RunTurn(t, Request, Req());
        var stop: bool;
        stop, cancelled, done := TurnReq();
        if stop { return; }
      }
      return false, true;
    }

    // The branch of Feed for one direction.
    method FeedReq(data: bytes) returns (u: Option<PropUpdate>, cancelled: bool)
      requires Valid() && !reqLSM.cancelled && data != []
      modifies reqBuf, reqLSM, this`reqMap, this`reqUpdated, this`reqDone
      ensures Valid()
      ensures var (m, v) := Lsm.Feed(Prog(t, Request), old(Req()), data); Req() == m && u == MergeUnder("req", v)
      ensures cancelled == reqLSM.cancelled && reqDone == (cancelled || reqLSM.index == 2)
    {
      hide Step;
      reqBuf.Append(data);
      reqUpdated := false;
      assert Req() == old(Req()).Fresh().Push(data);
      cancelled, reqDone := RunReq();
      u := None;
      if reqUpdated {
        u := MergeUnder("req", reqMap);
        reqUpdated := false;
      }
    }

    ghost function Resp(): Machine<StepId, Half>
      reads `respMap, `respUpdated, respBuf, respLSM
    {
      Machine(respLSM.Steps, respLSM.index, respLSM.cancelled, false, respUpdated, respBuf.Buf, Half(respMap))
    }

    method ParseResponseHeaders() returns (a: Action)
      requires respMap.Some?
      modifies respBuf, this`respMap, this`respUpdated
      ensures var o := Step(t, Response, Headers, old(respBuf.Buf), old(Half(respMap)));
              && Outcome(a, respBuf.Buf, Half(respMap), [], o.updated) == o
              && respUpdated == (old(respUpdated) || o.updated)
    {
      var headerMap: PropMap;
      a, headerMap := ParseHeaders(respBuf);
      if a == Next {
        respMap := Some(respMap.value["headers" := Nested(headerMap)]);
        respUpdated := true;
      }
    }

    // One turn of the loop of respLSM.Run().
    method TurnResp() returns (stop: bool, cancelled: bool, done: bool)
      requires reqBuf != respBuf && reqLSM != respLSM
      requires respLSM.Steps == STEPS && respLSM.index < 2 && (respLSM.index > 0 ==> respMap.Some?)
      modifies respBuf, respLSM, this`respMap, this`respUpdated
      ensures Resp() == After(Prog(t, Response), old(Resp()))
      ensures stop == !Goes(Step(t, Response, old(STEPS[respLSM.index]), old(respBuf.Buf), old(Half(respMap))).action)
      ensures stop && !old(respLSM.cancelled) ==> cancelled == done == respLSM.cancelled
    {
      assert STEPS + [] == STEPS;
      var action: Action;
      match respLSM.Steps[respLSM.index] {
        case Line => action := ParseResponseLine();
        case Headers => action := ParseResponseHeaders();
      }
      stop, cancelled, done := respLSM.Answer(action);
    }

    // respLSM.Run().
    method RunResp() returns (cancelled: bool, done: bool)
      requires Valid()
      modifies respBuf, respLSM, this`respMap, this`respUpdated
      ensures Resp() == Run(Prog(t, Response), old(Resp()))
      ensures respLSM.Steps == STEPS && respLSM.index <= 2 && (respLSM.index > 0 ==> respMap.Some?)
      ensures !old(respLSM.cancelled) ==>
                cancelled == respLSM.cancelled && done == (cancelled || respLSM.index == 2)
    {
      hide ParseHeaderLines, SplitBy, ParseLine, Index;
      ghost var p := Prog(t, Response);
      done, cancelled := respLSM.Finished();
      if done { return; }
      while respLSM.index < |respLSM.Steps|
        invariant Wf(p, Resp()) && Run(p, Resp()) == Run(p, old(Resp()))
        invariant respLSM.cancelled == old(respLSM.cancelled)
        decreases Rank(p, Resp())
      {
        RunTurn(t, Response, Resp());
        var stop: bool;
        stop, cancelled, done := TurnResp();
        if stop { return; }
      }
      return false, true;
    }

    // The branch of Feed for one direction.
    method FeedResp(data: bytes) returns (u: Option<PropUpdate>, cancelled: bool)
      requires Valid() && !respLSM.cancelled && data != []
      modifies respBuf, respLSM, this`respMap, this`respUpdated, this`respDone
      ensures Valid()
      ensures var (m, v) := Lsm.Feed(Prog(t, Response), old(Resp()), data); Resp() == m && u == MergeUnder("resp", v)
      ensures cancelled == respLSM.cancelled && respDone == (cancelled || respLSM.index == 2)
    {
      hide Step;
      respBuf.Append(data);
      respUpdated := false;
      assert Resp() == old(Resp()).Fresh().Push(data);
      cancelled, respDone := RunResp();
      u := None;
      if respUpdated {
        u := MergeUnder("resp", respMap);
        respUpdated := false;
      }
    }

    // The engine never feeds a stream that has been cancelled.
    method Feed(rev: bool, skip: int, data: bytes) returns (u: Option<PropUpdate>, done: bool)
      requires Valid() && !reqLSM.cancelled && !respLSM.cancelled
      modifies this, reqBuf, respBuf, reqLSM, respLSM
      ensures Valid()
      ensures skip != 0 || data == [] ==>
                u == None && done == (skip != 0) && Req() == old(Req()) && Resp() == old(Resp())
      ensures skip == 0 && data != [] && !rev ==>
                && var (m, v) := Lsm.Feed(Prog(t, Request), old(Req()), data);
                && Req() == m && Resp() == old(Resp()) && u == MergeUnder("req", v)
      ensures skip == 0 && data != [] && rev ==>
                && var (m, v) := Lsm.Feed(Prog(t, Response), old(Resp()), data);
                && Resp() == m && Req() == old(Req()) && u == MergeUnder("resp", v)
      ensures skip == 0 && data != [] ==>
                done == (reqLSM.cancelled || respLSM.cancelled || (reqLSM.index == 2 && respLSM.index == 2))
    {
      if skip != 0 {
        return None, true;
      }
      if |data| == 0 {
        return None, false;
      }
      var cancelled: bool;
      if rev {
        u, cancelled := FeedResp(data);
      } else {
        u, cancelled := FeedReq(data);
      }
      done := cancelled || (reqDone && respDone);
    }
  }

  lemma {:induction false} AtStart(t: Tokens, side: Side)
    ensures Going(Prog(t, side), INITIAL)
  {
    ProgGood(t, side);
  }

  // A WHOLE STREAM: the engine's loop over the chunks of both directions, until one machine gives
  // up or both are through. Of `n` chunks fed, each direction has had just its own bytes, at once
  // for all one can tell: that is what it publishes.
  method Drive(t: Tokens, cs: seq<(bool, bytes)>)
    returns (n: nat, asked: Option<PropUpdate>, answered: Option<PropUpdate>)
    ensures n <= |cs|
    ensures var (req, u) := Lsm.Feed(Prog(t, Request), INITIAL, BytesOf(cs[..n], false));
            var (resp, v) := Lsm.Feed(Prog(t, Response), INITIAL, BytesOf(cs[..n], true));
            && asked == MergeUnder("req", u) && answered == MergeUnder("resp", v)
            && (n < |cs| ==> Both(req, resp, u, v).Over())
  {
    ghost var p, q := Prog(t, Request), Prog(t, Response);
    ghost var b0 := Both(INITIAL, INITIAL, None, None);
    ghost var b := b0;
    hide Lsm.Feed, Prog, FeedBoth, Reached, BytesOf;
    ReachedFirst(p, q, b0, cs);
    var s := new HttpStream(t);
    var done := false;
    n, asked, answered := 0, None, None;
    while !done && n < |cs|
      invariant n <= |cs| && done == b.Over() && Reached(p, q, b0, cs, n, b)
      invariant s.Valid() && fresh(s) && fresh(s.reqBuf) && fresh(s.respBuf) && fresh(s.reqLSM) && fresh(s.respLSM)
                  && s.t == t
      invariant s.Req() == b.req && s.Resp() == b.resp
      invariant asked == MergeUnder("req", b.asked) && answered == MergeUnder("resp", b.answered)
    {
      var (rev, data) := cs[n];
      ReachedNext(p, q, b0, cs, n, b);
      var u: Option<PropUpdate>;
      u, done := s.Feed(rev, 0, data);
      if u.Some? {
        if rev {
          answered := u;
        } else {
          asked := u;
        }
      }
      b := FeedOne(p, q, b, rev, data);
      n := n + 1;
    }
    AtStart(t, Request);
    AtStart(t, Response);
    ReachedLast(p, q, b0, cs, n, b);
  }
}
