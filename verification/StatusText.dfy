/** The status file's text: the supervisor's printer and the clients' parser. */
module StatusText {
  import opened Types

  // ---------------------------------------------------------------- integers

  function Digit(d: nat): char
    requires d < 10
  {
    "0123456789"[d]
  }

  function Decimal(n: nat): (s: string)
    ensures s != []
  {
    if n < 10 then [Digit(n)] else Decimal(n / 10) + [Digit(n % 10)]
  }

  function Show(i: int): string {
    if i < 0 then "-" + Decimal(-i) else Decimal(i)
  }

  predicate IsDigit(c: char) {
    '0' <= c <= '9'
  }

  function DigitValue(c: char): nat
    requires IsDigit(c)
  {
    c as int - '0' as int
  }

  function Value(s: string): nat
    requires forall c | c in s :: IsDigit(c)
  {
    if s == [] then 0 else 10 * Value(s[..|s| - 1]) + DigitValue(s[|s| - 1])
  }

  /** Python's `int` on an optional sign and ASCII digits. */
  function ParseInt(s: string): Option<int> {
    var body := if s != [] && s[0] in "+-" then s[1..] else s;
    if body == [] || exists c :: c in body && !IsDigit(c) then None
    else
      var magnitude: int := Value(body);
      Some(if s[0] == '-' then -magnitude else magnitude)
  }

  lemma {:induction false} DecimalValue(n: nat)
    ensures forall c | c in Decimal(n) :: IsDigit(c)
    ensures Value(Decimal(n)) == n
  {
    if n >= 10 {
      DecimalValue(n / 10);
      assert Decimal(n)[..|Decimal(n)| - 1] == Decimal(n / 10);
    }
  }

  lemma IntRoundTrip(i: int)
    ensures ParseInt(Show(i)) == Some(i)
  {
    DecimalValue(if i < 0 then -i else i);
    if i < 0 {
      assert Show(i)[1..] == Decimal(-i);
    } else {
      assert Decimal(i)[0] in Decimal(i);
    }
  }

  /** Digits are decimal, the most significant first. */
  lemma ShowsDecimal()
    ensures Show(1234567890) == "1234567890" && Show(-15) == "-15" && Show(0) == "0"
  {
    DecimalGrows(1, 2, "1");
    DecimalGrows(12, 3, "12");
    DecimalGrows(123, 4, "123");
    DecimalGrows(1234, 5, "1234");
    DecimalGrows(12345, 6, "12345");
    DecimalGrows(123456, 7, "123456");
    DecimalGrows(1234567, 8, "1234567");
    DecimalGrows(12345678, 9, "12345678");
    DecimalGrows(123456789, 0, "123456789");
    DecimalGrows(1, 5, "1");
    assert Decimal(123456789) == "123456789";
  }

  lemma DecimalGrows(n: nat, d: nat, s: string)
    requires d < 10 && n > 0 && Decimal(n) == s
    ensures Decimal(10 * n + d) == s + ["0123456789"[d]]
  {
  }

  // ---------------------------------------------------------------- printing

  function ShowExit(e: ExitReason): string {
    match e
    case Exited(i) => "exited(" + Show(i) + ")"
    case Signaled(i) => "signaled(" + Show(i) + ")"
  }

  function ShowReason(r: StopReason): string {
    match r
    case NeverStarted => "never_started"
    case SupervisorTerminated(e) => "supervisor_terminated(" + ShowExit(e) + ")"
    case Success => "success"
    case Error(e) => "error(" + Show(e) + ")"
    case Crashed(s) => "crashed(" + Show(s) + ")"
    case Killed(s) => "killed(" + Show(s) + ")"
  }

  function KindOf(s: ServiceState): string {
    match s
    case Stopped(_) => "stopped"
    case Running(_) => "running"
    case Stopping(_, _) => "stopping"
  }

  function DetailOf(s: ServiceState): string {
    match s
    case Stopped(r) => ShowReason(r)
    case Running(p) => Show(p)
    case Stopping(p, _) => Show(p)
  }

  function FormatLine(s: Service): string {
    s.name + " " + Show(s.id) + " " + KindOf(s.state) + " " + DetailOf(s.state)
  }

  function Format(services: seq<Service>): string {
    if services == [] then "" else FormatLine(services[0]) + "\n" + Format(services[1..])
  }

  /** The words that clients of the status file know. */
  lemma StatusWords(s: Service)
    ensures KindOf(s.state) in {"running", "stopping", "stopped"}
    ensures KindOf(s.state) == "running" <==> s.state.Running?
    ensures KindOf(s.state) == "stopping" <==> s.state.Stopping?
    ensures KindOf(s.state) == "stopped" <==> s.state.Stopped?
    ensures s.state.Running? ==> FormatLine(s) == s.name + " " + Show(s.id) + " running " + Show(s.state.pid)
    ensures s.state.Stopping? ==> FormatLine(s) == s.name + " " + Show(s.id) + " stopping " + Show(s.state.pid)
    ensures s.state.Stopped? ==> FormatLine(s) == s.name + " " + Show(s.id) + " stopped " + ShowReason(s.state.reason)
  {
    Apart("running", "stopping", "stopped");
    match s.state
    case Running(_) => Together(s.name + " " + Show(s.id), "running", DetailOf(s.state));
    case Stopping(_, _) => Together(s.name + " " + Show(s.id), "stopping", DetailOf(s.state));
    case Stopped(_) => Together(s.name + " " + Show(s.id), "stopped", DetailOf(s.state));
  }

  lemma Apart(a: string, b: string, c: string)
    requires |a| == 7 && |b| == 8 && |c| == 7 && a[0] != c[0]
    ensures a != b && b != c && a != c
  {
  }

  lemma Together(a: string, b: string, c: string)
    ensures a + " " + b + " " + c == a + (" " + b + " ") + c
  {
  }

  /** The words for the reasons, and what they carry. */
  lemma ReasonWords(code: int)
    ensures ShowReason(NeverStarted) == "never_started" && ShowReason(Success) == "success"
    ensures ShowReason(Error(code)) == "error(" + Show(code) + ")"
    ensures ShowReason(Crashed(code)) == "crashed(" + Show(code) + ")"
    ensures ShowReason(Killed(code)) == "killed(" + Show(code) + ")"
    ensures ShowReason(SupervisorTerminated(Exited(code))) == "supervisor_terminated(exited(" + Show(code) + "))"
    ensures ShowReason(SupervisorTerminated(Signaled(code))) == "supervisor_terminated(signaled(" + Show(code) + "))"
  {
    Nested("supervisor_terminated(", "exited(", Show(code));
    Nested("supervisor_terminated(", "signaled(", Show(code));
    assert "supervisor_terminated(" + "exited(" == "supervisor_terminated(exited(";
    assert "supervisor_terminated(" + "signaled(" == "supervisor_terminated(signaled(";
  }

  lemma Nested(a: string, b: string, c: string)
    ensures a + (b + c + ")") + ")" == (a + b) + c + "))"
  {
  }

  // ---------------------------------------------------------------- splitting

  /** The characters Python's `str.split` separates words at. */
  predicate IsSpace(c: char) {
    var u := c as int;
    || 0x09 <= u <= 0x0D || 0x1C <= u <= 0x20 || u == 0x85 || u == 0xA0 || u == 0x1680
    || 0x2000 <= u <= 0x200A || u == 0x2028 || u == 0x2029 || u == 0x202F || u == 0x205F || u == 0x3000
  }

  predicate IsNewline(c: char) {
    c == '\n' || c == '\r'
  }

  /** How many characters of `s` come before the first that satisfies `p`. */
  function Before(s: string, p: char -> bool): (k: nat)
    ensures k <= |s| && (forall i | 0 <= i < k :: !p(s[i])) && (k < |s| ==> p(s[k]))
  {
    if s == [] || p(s[0]) then 0 else 1 + Before(s[1..], p)
  }

  function Words(s: string): seq<string>
    decreases |s|
  {
    if s == [] then []
    else if IsSpace(s[0]) then Words(s[1..])
    else [s[..Before(s, IsSpace)]] + Words(s[Before(s, IsSpace)..])
  }

  function Lines(s: string): seq<string>
    decreases |s|
  {
    if s == [] then []
    else
      var k := Before(s, IsNewline);
      if k == |s| then [s] else [s[..k]] + Lines(s[k + 1..])
  }

  predicate IsWord(s: string) {
    s != [] && forall c | c in s :: !IsSpace(c)
  }

  lemma BeforeAt(a: string, c: char, rest: string, p: char -> bool)
    requires (forall x | x in a :: !p(x)) && p(c)
    ensures Before(a + [c] + rest, p) == |a|
  {
    var s := a + [c] + rest;
    assert s[|a|] == c;
    assert forall i | 0 <= i < |a| :: s[i] == a[i] && !p(s[i]);
  }

  lemma WordsCons(a: string, rest: string)
    requires IsWord(a)
    ensures Words(a + " " + rest) == [a] + Words(rest)
  {
    var s := a + " " + rest;
    BeforeAt(a, ' ', rest, IsSpace);
    assert a[0] in a && s[0] == a[0];
    assert s[..|a|] == a && s[|a|..] == " " + rest;
    assert (" " + rest)[1..] == rest;
  }

  lemma WordsOne(a: string)
    requires IsWord(a)
    ensures Words(a) == [a]
  {
    assert forall i | 0 <= i < |a| :: a[i] in a && !IsSpace(a[i]);
    assert a[..|a|] == a;
  }

  lemma LinesCons(a: string, rest: string)
    requires forall c | c in a :: !IsNewline(c)
    ensures Lines(a + "\n" + rest) == [a] + Lines(rest)
  {
    var s := a + "\n" + rest;
    BeforeAt(a, '\n', rest, IsNewline);
    assert s[..|a|] == a && s[|a| + 1..] == rest;
  }

  lemma {:induction false} WordsAreWords(s: string, w: string)
    requires w in Words(s)
    ensures IsWord(w)
    decreases |s|
  {
    if IsSpace(s[0]) {
      WordsAreWords(s[1..], w);
    } else {
      var k := Before(s, IsSpace);
      if w != s[..k] {
        WordsAreWords(s[k..], w);
      }
    }
  }

  // ---------------------------------------------------------------- parsing

  datatype StatusLine = StatusLine(name: string, id: int, state: string, detail: string)

  datatype Parsed = Good(lines: seq<StatusLine>) | Invalid(line: string)

  /** `StatusFile.from_path` on the lines of the file. */
  function ParseLines(lines: seq<string>): Parsed {
    if lines == [] then Good([])
    else
      var parts := Words(lines[0]);
      if parts == [] then ParseLines(lines[1..])
      else if |parts| < 4 || ParseInt(parts[1]).None? then Invalid(lines[0])
      else
        match ParseLines(lines[1..])
        case Invalid(l) => Invalid(l)
        case Good(rest) => Good([StatusLine(parts[0], ParseInt(parts[1]).value, parts[2], parts[3])] + rest)
  }

  function Parse(text: string): Parsed {
    ParseLines(Lines(text))
  }

  /** `after` with `lines` in front. */
  function Prepend(lines: seq<StatusLine>, after: Parsed): Parsed {
    match after
    case Invalid(l) => Invalid(l)
    case Good(rest) => Good(lines + rest)
  }

  /** `from_path`, line by line, as the clients' helper does it. */
  method FromPath(text: string) returns (r: Parsed)
    ensures r == Parse(text)
  {
    var raw := Lines(text);
    var lines: seq<StatusLine> := [];
    assert raw[0..] == raw;
    for i := 0 to |raw|
      invariant Parse(text) == Prepend(lines, ParseLines(raw[i..]))
    {
      assert raw[i..][1..] == raw[i + 1..];
      var parts := Words(raw[i]);
      if parts != [] {
        if |parts| < 4 {
          return Invalid(raw[i]);
        }
        var id := ParseInt(parts[1]);
        if id.None? {
          return Invalid(raw[i]);
        }
        var line := StatusLine(parts[0], id.value, parts[2], parts[3]);
        ghost var after := ParseLines(raw[i + 1..]);
        assert after.Good? ==> (lines + [line]) + after.lines == lines + ([line] + after.lines);
        lines := lines + [line];
      }
    }
    assert raw[|raw|..] == [];
    r := Good(lines);
  }

  /** A line the reader has nothing to do for, or one it can read. */
  predicate Readable(line: string) {
    var parts := Words(line);
    parts == [] || (|parts| >= 4 && ParseInt(parts[1]).Some?)
  }

  /** The lines that are not blank. */
  function Filled(lines: seq<string>): seq<string> {
    if lines == [] then [] else (if Words(lines[0]) == [] then [] else [lines[0]]) + Filled(lines[1..])
  }

  lemma AllReadable(lines: seq<string>)
    requires lines != []
    ensures (forall l | l in lines :: Readable(l)) <==> Readable(lines[0]) && forall l | l in lines[1..] :: Readable(l)
  {
    if Readable(lines[0]) && forall l | l in lines[1..] :: Readable(l) {
      forall l | l in lines ensures Readable(l) {
        if l != lines[0] {
          assert l in lines[1..];
        }
      }
    }
  }

  /** The first four words of a line, the second as a number. */
  predicate ReadAs(line: string, l: StatusLine) {
    var parts := Words(line);
    && |parts| >= 4 && ParseInt(parts[1]) == Some(l.id)
    && l.name == parts[0] && l.state == parts[2] && l.detail == parts[3]
  }

  lemma ReadableHead(lines: seq<string>)
    requires lines != []
    ensures ParseLines(lines).Good? <==> Readable(lines[0]) && ParseLines(lines[1..]).Good?
    ensures ParseLines(lines).Good? ==>
      var rest := ParseLines(lines[1..]).lines;
      if Words(lines[0]) == [] then ParseLines(lines).lines == rest
      else ParseLines(lines).lines != [] && ParseLines(lines).lines[1..] == rest &&
           ReadAs(lines[0], ParseLines(lines).lines[0])
  {
  }

  /** The reader gives up exactly when a line that is not blank has too few words or no number for an id. */
  lemma {:induction false} ParseGoodIff(lines: seq<string>)
    ensures ParseLines(lines).Good? <==> forall l | l in lines :: Readable(l)
  {
    if lines != [] {
      ParseGoodIff(lines[1..]);
      ReadableHead(lines);
      AllReadable(lines);
    }
  }

  /** Otherwise it reads the lines that are not blank, in order. */
  lemma {:induction false} ParseTakes(lines: seq<string>)
    requires ParseLines(lines).Good?
    ensures |ParseLines(lines).lines| == |Filled(lines)|
    ensures forall i | 0 <= i < |Filled(lines)| :: ReadAs(Filled(lines)[i], ParseLines(lines).lines[i])
  {
    if lines != [] {
      ReadableHead(lines);
      ParseTakes(lines[1..]);
      var all, rest := ParseLines(lines).lines, ParseLines(lines[1..]).lines;
      if Words(lines[0]) != [] {
        forall i | 0 < i < |Filled(lines)| ensures ReadAs(Filled(lines)[i], all[i]) {
          assert all[i] == rest[i - 1] && Filled(lines)[i] == Filled(lines[1..])[i - 1];
        }
      }
    }
  }

  /** What a reader should learn about a service. */
  function LineOf(s: Service): StatusLine {
    StatusLine(s.name, s.id, KindOf(s.state), DetailOf(s.state))
  }

  function LinesOf(services: seq<Service>): seq<StatusLine> {
    if services == [] then [] else [LineOf(services[0])] + LinesOf(services[1..])
  }

  /** Only visible ASCII characters. */
  predicate Plain(s: string) {
    s != [] && forall c | c in s :: '!' <= c <= '~'
  }

  lemma ShowIsPlain(i: int)
    ensures Plain(Show(i))
  {
    DecimalValue(if i < 0 then -i else i);
  }

  lemma WrapIsPlain(prefix: string, body: string)
    requires Plain(prefix) && Plain(body)
    ensures Plain(prefix + body + ")")
  {
  }

  lemma ExitIsPlain(e: ExitReason)
    ensures Plain(ShowExit(e))
  {
    match e
    case Exited(i) =>
      ShowIsPlain(i);
      WrapIsPlain("exited(", Show(i));
    case Signaled(i) =>
      ShowIsPlain(i);
      WrapIsPlain("signaled(", Show(i));
  }

  lemma ReasonIsPlain(r: StopReason)
    ensures Plain(ShowReason(r))
  {
    match r
    case SupervisorTerminated(e) =>
      ExitIsPlain(e);
      WrapIsPlain("supervisor_terminated(", ShowExit(e));
    case Error(i) =>
      ShowIsPlain(i);
      WrapIsPlain("error(", Show(i));
    case Crashed(i) =>
      ShowIsPlain(i);
      WrapIsPlain("crashed(", Show(i));
    case Killed(i) =>
      ShowIsPlain(i);
      WrapIsPlain("killed(", Show(i));
    case _ =>
  }

  lemma DetailIsWord(s: ServiceState)
    ensures IsWord(KindOf(s)) && IsWord(DetailOf(s))
  {
    assert Plain(KindOf(s));
    match s
    case Running(p) => ShowIsPlain(p);
    case Stopping(p, _) => ShowIsPlain(p);
    case Stopped(r) => ReasonIsPlain(r);
  }

  lemma SpacedIsOneLine(a: string, b: string)
    requires (forall c | c in a :: !IsNewline(c)) && (forall c | c in b :: !IsNewline(c))
    ensures forall c | c in a + " " + b :: !IsNewline(c)
  {
  }

  lemma Regroup(a: string, b: string, c: string, d: string)
    ensures a + " " + b + " " + c + " " + d == a + " " + (b + " " + (c + " " + d))
  {
  }

  lemma FourWords(a: string, b: string, c: string, d: string)
    requires IsWord(a) && IsWord(b) && IsWord(c) && IsWord(d)
    ensures Words(a + " " + b + " " + c + " " + d) == [a, b, c, d]
  {
    Regroup(a, b, c, d);
    WordsCons(a, b + " " + (c + " " + d));
    WordsCons(b, c + " " + d);
    WordsCons(c, d);
    WordsOne(d);
  }

  lemma FourWordsOneLine(a: string, b: string, c: string, d: string)
    requires IsWord(a) && IsWord(b) && IsWord(c) && IsWord(d)
    ensures forall x | x in a + " " + b + " " + c + " " + d :: !IsNewline(x)
  {
    SpacedIsOneLine(a, b);
    SpacedIsOneLine(a + " " + b, c);
    SpacedIsOneLine(a + " " + b + " " + c, d);
  }

  lemma LineWords(s: Service)
    requires IsWord(s.name)
    ensures Words(FormatLine(s)) == [s.name, Show(s.id), KindOf(s.state), DetailOf(s.state)]
    ensures forall c | c in FormatLine(s) :: !IsNewline(c)
  {
    assert IsWord(Show(s.id)) by {
      ShowIsPlain(s.id);
    }
    DetailIsWord(s.state);
    FourWords(s.name, Show(s.id), KindOf(s.state), DetailOf(s.state));
    FourWordsOneLine(s.name, Show(s.id), KindOf(s.state), DetailOf(s.state));
  }

  lemma {:induction false} ParseFormat(services: seq<Service>)
    requires forall s | s in services :: IsWord(s.name)
    ensures Parse(Format(services)) == Good(LinesOf(services))
  {
    if services != [] {
      var s := services[0];
      ParseFormat(services[1..]);
      LineWords(s);
      LinesCons(FormatLine(s), Format(services[1..]));
      IntRoundTrip(s.id);
      assert Lines(Format(services))[1..] == Lines(Format(services[1..]));
    }
  }

  lemma {:induction false} ParsedNamesAreWords(lines: seq<string>)
    ensures ParseLines(lines).Good? ==> forall l | l in ParseLines(lines).lines :: IsWord(l.name)
  {
    if lines != [] {
      ParsedNamesAreWords(lines[1..]);
      var parts := Words(lines[0]);
      if parts != [] {
        WordsAreWords(lines[0], parts[0]);
      }
    }
  }

  lemma {:induction false} LinesOfAt(services: seq<Service>)
    ensures |LinesOf(services)| == |services|
    ensures forall i | 0 <= i < |services| :: LinesOf(services)[i] == LineOf(services[i])
  {
    if services != [] {
      LinesOfAt(services[1..]);
    }
  }

  /**
   A reader of the status file gets back every service's name, id, kind of state and pid or reason,
   for exactly those registries whose names are non-empty and free of white space.
   */
  lemma StatusRoundTripIff(services: seq<Service>)
    ensures Parse(Format(services)) == Good(LinesOf(services)) <==> forall s | s in services :: IsWord(s.name)
  {
    if forall s | s in services :: IsWord(s.name) {
      ParseFormat(services);
    } else if Parse(Format(services)) == Good(LinesOf(services)) {
      ParsedNamesAreWords(Lines(Format(services)));
      LinesOfAt(services);
    }
  }

  // ---------------------------------------------------------------- the text determines the state

  lemma Unwrap(prefix: string, x: string, y: string, suffix: string)
    requires prefix + x + suffix == prefix + y + suffix
    ensures x == y
  {
    var s := prefix + x + suffix;
    assert |x| == |y|;
    assert x == s[|prefix|..|prefix| + |x|];
    assert y == s[|prefix|..|prefix| + |y|];
  }

  lemma ShowInjective(i: int, j: int)
    requires Show(i) == Show(j)
    ensures i == j
  {
    IntRoundTrip(i);
    IntRoundTrip(j);
  }

  lemma ExitTextInjective(e: ExitReason, f: ExitReason)
    requires ShowExit(e) == ShowExit(f)
    ensures e == f
  {
    assert ShowExit(e)[0] == if e.Exited? then 'e' else 's';
    assert ShowExit(f)[0] == if f.Exited? then 'e' else 's';
    match e
    case Exited(i) =>
      Unwrap("exited(", Show(i), Show(f.code), ")");
      ShowInjective(i, f.code);
    case Signaled(i) =>
      Unwrap("signaled(", Show(i), Show(f.sig), ")");
      ShowInjective(i, f.sig);
  }

  /** The printed stop reason determines the stop reason, nested exit reasons and integers included. */
  lemma ReasonTextInjective(r: StopReason, q: StopReason)
    requires ShowReason(r) == ShowReason(q)
    ensures r == q
  {
    SameReasonKind(r, q);
    match r
    case SupervisorTerminated(e) =>
      Unwrap("supervisor_terminated(", ShowExit(e), ShowExit(q.exit), ")");
      ExitTextInjective(e, q.exit);
    case Error(i) =>
      Unwrap("error(", Show(i), Show(q.code), ")");
      ShowInjective(i, q.code);
    case Crashed(i) =>
      Unwrap("crashed(", Show(i), Show(q.sig), ")");
      ShowInjective(i, q.sig);
    case Killed(i) =>
      Unwrap("killed(", Show(i), Show(q.sig), ")");
      ShowInjective(i, q.sig);
    case _ =>
  }

  /** The first and third letters tell the reasons apart. */
  function Mark(r: StopReason): (char, char) {
    match r
    case NeverStarted => ('n', 'v')
    case SupervisorTerminated(_) => ('s', 'p')
    case Success => ('s', 'c')
    case Error(_) => ('e', 'r')
    case Crashed(_) => ('c', 'a')
    case Killed(_) => ('k', 'l')
  }

  lemma MarkShows(r: StopReason)
    ensures |ShowReason(r)| > 2 && Mark(r) == (ShowReason(r)[0], ShowReason(r)[2])
  {
  }

  lemma SameReasonKind(r: StopReason, q: StopReason)
    requires ShowReason(r) == ShowReason(q)
    ensures Mark(r) == Mark(q)
  {
    MarkShows(r);
    MarkShows(q);
  }

  /** A status line determines the state of the service, up to the kill deadline it does not show. */
  lemma StateTextInjective(s: ServiceState, t: ServiceState)
    requires KindOf(s) == KindOf(t) && DetailOf(s) == DetailOf(t)
    ensures s == t || (s.Stopping? && t.Stopping? && s.pid == t.pid)
  {
    assert KindOf(s)[4] == (match s case Stopped(_) => 'p' case Running(_) => 'i' case Stopping(_, _) => 'p');
    assert |KindOf(s)| == (if s.Stopping? then 8 else 7);
    assert |KindOf(t)| == (if t.Stopping? then 8 else 7);
    assert KindOf(t)[4] == (match t case Stopped(_) => 'p' case Running(_) => 'i' case Stopping(_, _) => 'p');
    match s
    case Stopped(r) => ReasonTextInjective(r, t.reason);
    case Running(p) => ShowInjective(p, t.pid);
    case Stopping(p, _) => ShowInjective(p, t.pid);
  }
}
