/**
 * `renderTranscript` of app/components/ReplayPanel.jsx: how a stored
 * transcript is shown as a list of speaker-labelled messages. The text is
 * split at line feeds, empty pieces are dropped, and each remaining line is
 * trimmed, given a speaker from its (case-insensitive) prefix, and reduced
 * to the message after its first colon.
 */
module Transcript {

  // ---------------------------------------------------------------------------
  // String primitives with JavaScript's meaning

  /** The characters `String.prototype.trim` removes: white space and line
      terminators. */
  predicate IsJsWhitespace(c: char) {
    || c == '\t' || c == '\n' || c == '\U{000B}' || c == '\U{000C}' || c == '\r' || c == ' '
    || c == '\U{00A0}' || c == '\U{1680}' || ('\U{2000}' <= c <= '\U{200A}')
    || c == '\U{2028}' || c == '\U{2029}' || c == '\U{202F}' || c == '\U{205F}'
    || c == '\U{3000}' || c == '\U{FEFF}'
  }

  predicate AllWhitespace(s: string) {
    forall i :: 0 <= i < |s| ==> IsJsWhitespace(s[i])
  }

  function TrimStart(s: string): (r: string)
    ensures |r| <= |s| && r == s[|s| - |r|..]
    ensures r != "" ==> !IsJsWhitespace(r[0])
  {
    if s != [] && IsJsWhitespace(s[0]) then TrimStart(s[1..]) else s
  }

  /** What `TrimStart` removes is white space. */
  lemma {:induction false} TrimStartRemovesWhitespace(s: string)
    ensures AllWhitespace(s[..|s| - |TrimStart(s)|])
    decreases |s|
  {
    if s != [] && IsJsWhitespace(s[0]) {
      TrimStartRemovesWhitespace(s[1..]);
      var k := |s| - |TrimStart(s)|;
      forall i | 0 < i < k ensures IsJsWhitespace(s[..k][i]) {
        assert s[..k][i] == s[1..][..k - 1][i - 1];
      }
    }
  }

  function TrimEnd(s: string): (r: string)
    ensures |r| <= |s| && r == s[..|r|]
    ensures AllWhitespace(s[|r|..])
    ensures r != "" ==> !IsJsWhitespace(r[|r| - 1])
  {
    if s != [] && IsJsWhitespace(s[|s| - 1]) then
      var r := TrimEnd(s[..|s| - 1]);
      assert s[|r|..] == s[..|s| - 1][|r|..] + [s[|s| - 1]];
      r
    else s
  }

  /** `s.trim()`: the longest piece of `s` that neither starts nor ends with
      white space, obtained by removing white space from both ends. */
  function Trim(s: string): (r: string)
    ensures |r| <= |s|
    ensures r != "" ==> !IsJsWhitespace(r[0]) && !IsJsWhitespace(r[|r| - 1])
  {
    TrimEnd(TrimStart(s))
  }

  /** `s.split(sep)` for a one-character separator: the pieces between the
      separators, so `n` separators give `n + 1` pieces, some possibly empty. */
  function Split(s: string, sep: char): (parts: seq<string>)
    ensures |parts| >= 1
    decreases |s|
  {
    if s == [] then [""]
    else if s[0] == sep then [""] + Split(s[1..], sep)
    else
      var rest := Split(s[1..], sep);
      [[s[0]] + rest[0]] + rest[1..]
  }

  /** `parts.join(sep)`. */
  function Join(parts: seq<string>, sep: char): string {
    if |parts| == 0 then ""
    else if |parts| == 1 then parts[0]
    else parts[0] + [sep] + Join(parts[1..], sep)
  }

  /** `s.toLowerCase()` on the letters A to Z. */
  function LowerAscii(s: string): (r: string)
    ensures |r| == |s|
    ensures forall i :: 0 <= i < |s| ==> r[i] == LowerChar(s[i])
  {
    seq(|s|, i requires 0 <= i < |s| => LowerChar(s[i]))
  }

  function LowerChar(c: char): char {
    if 'A' <= c <= 'Z' then (c as int + 32) as char else c
  }

  predicate StartsWith(s: string, prefix: string) {
    |prefix| <= |s| && s[..|prefix|] == prefix
  }

  // ---------------------------------------------------------------------------
  // The rendering

  datatype Speaker = Agent | Customer | Other

  datatype Row = Row(speaker: Speaker, message: string)

  /** Either the "No transcript" placeholder or one row per line. */
  datatype View = NoTranscript | Rows(rows: seq<Row>)

  /** `parts.filter(Boolean)`: the non-empty strings, in order. */
  function NonEmpty(parts: seq<string>): (r: seq<string>)
    ensures |r| <= |parts|
    ensures forall i :: 0 <= i < |r| ==> r[i] != ""
    ensures forall x :: x in r <==> x in parts && x != ""
  {
    if parts == [] then []
    else if parts[0] == "" then NonEmpty(parts[1..])
    else [parts[0]] + NonEmpty(parts[1..])
  }

  /** `text.split('\n').filter(Boolean)`. */
  function Lines(text: string): (ls: seq<string>)
    ensures forall i :: 0 <= i < |ls| ==> ls[i] != "" && '\n' !in ls[i]
  {
    SplitPiecesFree(text, '\n');
    assert forall x :: x in Split(text, '\n') ==> '\n' !in x;
    NonEmpty(Split(text, '\n'))
  }

  const AgentPrefix: string := "agent:"
  const CustomerPrefix: string := "customer:"
  const ClientPrefix: string := "client:"

  /** The speaker of a trimmed line, from its lower-cased prefix. */
  function SpeakerOf(trimmed: string): (sp: Speaker)
    ensures sp == Agent <==> StartsWith(LowerAscii(trimmed), AgentPrefix)
    ensures sp == Customer <==>
      !StartsWith(LowerAscii(trimmed), AgentPrefix)
      && (StartsWith(LowerAscii(trimmed), CustomerPrefix) || StartsWith(LowerAscii(trimmed), ClientPrefix))
  {
    var lower := LowerAscii(trimmed);
    if StartsWith(lower, AgentPrefix) then Agent
    else if StartsWith(lower, CustomerPrefix) || StartsWith(lower, ClientPrefix) then Customer
    else Other
  }

  /** Everything after the first colon, rejoined and trimmed; the whole
      trimmed line when it has no colon. */
  function MessageOf(trimmed: string): (m: string)
    ensures ':' !in trimmed ==> m == trimmed
  {
    if ':' in trimmed then Trim(Join(Split(trimmed, ':')[1..], ':')) else trimmed
  }

  /** One line as the panel shows it: the speaker and message of the
      trimmed line. */
  function RowOf(line: string): (r: Row)
    ensures r.speaker == SpeakerOf(Trim(line))
    ensures ':' !in Trim(line) ==> r.message == Trim(line)
  {
    var trimmed := Trim(line);
    Row(SpeakerOf(trimmed), MessageOf(trimmed))
  }

  /** `lines.map(...)`. */
  function RowsOf(lines: seq<string>): (rows: seq<Row>)
    ensures |rows| == |lines|
    ensures forall i :: 0 <= i < |lines| ==> rows[i] == RowOf(lines[i])
  {
    seq(|lines|, i requires 0 <= i < |lines| => RowOf(lines[i]))
  }

  /** `renderTranscript`: the placeholder for an empty text, otherwise one
      row per non-empty line, in order. */
  function RenderTranscript(text: string): (v: View)
    ensures v.NoTranscript? <==> text == ""
    ensures v.Rows? ==> |v.rows| == |Lines(text)|
    ensures v.Rows? ==> forall i :: 0 <= i < |v.rows| ==> v.rows[i] == RowOf(Lines(text)[i])
  {
    if text == "" then NoTranscript else Rows(RowsOf(Lines(text)))
  }

  // ---------------------------------------------------------------------------
  // Properties of trimming

  /** `r` sits in `s` at `i`, with only white space before and after it. */
  predicate Framed(s: string, i: nat, r: string) {
    && i + |r| <= |s|
    && s[i..i + |r|] == r
    && AllWhitespace(s[..i])
    && AllWhitespace(s[i + |r|..])
  }

  /** `Trim` removes white space only, and only at the two ends: the result
      is the piece of `s` between a white-space prefix and a white-space
      suffix. */
  lemma TrimSlice(s: string)
    ensures Framed(s, |s| - |TrimStart(s)|, Trim(s))
  {
    TrimStartRemovesWhitespace(s);
    PieceOfPiece(s, TrimStart(s), Trim(s));
  }

  lemma PieceOfPiece(s: string, a: string, r: string)
    requires |a| <= |s| && a == s[|s| - |a|..] && AllWhitespace(s[..|s| - |a|])
    requires |r| <= |a| && r == a[..|r|] && AllWhitespace(a[|r|..])
    ensures Framed(s, |s| - |a|, r)
  {
    var i := |s| - |a|;
    assert s[i..i + |r|] == a[..|r|];
    assert s[i + |r|..] == a[|r|..];
  }

  /** A string of white space alone trims to the empty string. */
  lemma {:induction false} TrimAllWhitespace(s: string)
    requires AllWhitespace(s)
    ensures TrimStart(s) == "" && Trim(s) == ""
    decreases |s|
  {
    if s != [] {
      TrimAllWhitespace(s[1..]);
    }
  }

  /** Trimming twice is trimming once. */
  lemma TrimIdempotent(s: string)
    ensures Trim(Trim(s)) == Trim(s)
  {
    var r := Trim(s);
    if r != "" {
      TrimNoEdges(r);
    }
  }

  lemma TrimNoEdges(s: string)
    requires s != "" && !IsJsWhitespace(s[0]) && !IsJsWhitespace(s[|s| - 1])
    ensures Trim(s) == s
  {
  }

  // ---------------------------------------------------------------------------
  // Properties of split and join

  /** Joining the pieces with the separator gives the original string back. */
  lemma {:induction false} JoinSplit(s: string, sep: char)
    ensures Join(Split(s, sep), sep) == s
    decreases |s|
  {
    if s != [] {
      JoinSplit(s[1..], sep);
      var rest := Split(s[1..], sep);
      if s[0] == sep {
        assert Split(s, sep)[1..] == rest;
        if |rest| == 1 {
          assert rest[0] == s[1..];
        }
      } else if |rest| > 1 {
        assert Split(s, sep)[1..] == rest[1..];
        assert Join(rest, sep) == rest[0] + [sep] + Join(rest[1..], sep);
      }
    }
  }

  /** No piece contains the separator. */
  lemma {:induction false} SplitPiecesFree(s: string, sep: char)
    ensures forall i :: 0 <= i < |Split(s, sep)| ==> sep !in Split(s, sep)[i]
    decreases |s|
  {
    if s != [] {
      SplitPiecesFree(s[1..], sep);
    }
  }

  /** Up to its first separator, `s` is the first piece; the other pieces
      are those of the rest after that separator. */
  lemma {:induction false} SplitAtFirst(s: string, sep: char, i: nat)
    requires i < |s| && s[i] == sep && sep !in s[..i]
    ensures Split(s, sep) == [s[..i]] + Split(s[i + 1..], sep)
    decreases i
  {
    if i > 0 {
      assert s[1..][..i - 1] == s[..i][1..];
      SplitAtFirst(s[1..], sep, i - 1);
      assert s[1..][i - 1 + 1..] == s[i + 1..];
      assert [s[0]] + s[1..][..i - 1] == s[..i];
    }
  }

  /** The lines the panel shows are non-empty, contain no line feed, and
      together are the whole text minus its line feeds. */
  lemma LinesProperties(text: string)
    ensures forall i :: 0 <= i < |Lines(text)| ==> Lines(text)[i] != "" && '\n' !in Lines(text)[i]
    ensures Concat(Lines(text)) == Without(text, '\n')
  {
    SplitPiecesFree(text, '\n');
    ConcatNonEmpty(Split(text, '\n'));
    ConcatSplit(text, '\n');
  }

  function Concat(parts: seq<string>): string {
    if parts == [] then "" else parts[0] + Concat(parts[1..])
  }

  /** `s` with every `c` removed. */
  function Without(s: string, c: char): string {
    if s == [] then "" else (if s[0] == c then "" else [s[0]]) + Without(s[1..], c)
  }

  /** `filter` keeps a single piece exactly when it is non-empty. */
  lemma NonEmptySingle(x: string)
    ensures NonEmpty([x]) == if x == "" then [] else [x]
  {
    assert [x][1..] == [];
  }

  /** `filter` works piece by piece: filtering a concatenation is filtering
      each part, in order. */
  lemma {:induction false} NonEmptyAppend(a: seq<string>, b: seq<string>)
    ensures NonEmpty(a + b) == NonEmpty(a) + NonEmpty(b)
    decreases |a|
  {
    if a != [] {
      assert (a + b)[0] == a[0];
      assert (a + b)[1..] == a[1..] + b;
      NonEmptyAppend(a[1..], b);
    } else {
      assert a + b == b;
    }
  }

  lemma {:induction false} ConcatNonEmpty(parts: seq<string>)
    ensures Concat(NonEmpty(parts)) == Concat(parts)
  {
    if parts != [] {
      ConcatNonEmpty(parts[1..]);
      if parts[0] != "" {
        assert ([parts[0]] + NonEmpty(parts[1..]))[1..] == NonEmpty(parts[1..]);
      }
    }
  }

  lemma {:induction false} ConcatSplit(s: string, c: char)
    ensures Concat(Split(s, c)) == Without(s, c)
    decreases |s|
  {
    if s != [] {
      ConcatSplit(s[1..], c);
      var rest := Split(s[1..], c);
      if s[0] == c {
        assert Split(s, c)[1..] == rest;
      } else {
        assert Split(s, c)[1..] == rest[1..];
        assert Concat(rest) == rest[0] + Concat(rest[1..]);
      }
    }
  }

  // ---------------------------------------------------------------------------
  // Properties of the rendering

  /** Re-joining the pieces after the first colon is the same as taking the
      text after the first colon. */
  lemma MessageAfterFirstColon(trimmed: string, i: nat)
    requires i < |trimmed| && trimmed[i] == ':' && ':' !in trimmed[..i]
    ensures MessageOf(trimmed) == Trim(trimmed[i + 1..])
  {
    SplitAtFirst(trimmed, ':', i);
    assert Split(trimmed, ':')[1..] == Split(trimmed[i + 1..], ':');
    JoinSplit(trimmed[i + 1..], ':');
  }

  /** A line the panel gives to a speaker shows what follows the speaker's
      tag (and its colon), trimmed. */
  lemma LabelledMessage(trimmed: string, tag: string)
    requires tag == AgentPrefix || tag == CustomerPrefix || tag == ClientPrefix
    requires StartsWith(LowerAscii(trimmed), tag)
    ensures MessageOf(trimmed) == Trim(trimmed[|tag|..])
  {
    TagShape(tag);
    TagThenColon(trimmed, tag);
  }

  /** Each speaker tag ends in its only colon. */
  lemma TagShape(tag: string)
    requires tag == AgentPrefix || tag == CustomerPrefix || tag == ClientPrefix
    ensures |tag| >= 1 && tag[|tag| - 1] == ':' && ':' !in tag[..|tag| - 1]
  {
    var k := |tag| - 1;
    if tag == AgentPrefix {
      assert tag[..k] == "agent";
    } else if tag == CustomerPrefix {
      assert tag[..k] == "customer";
    } else {
      assert tag[..k] == "client";
    }
  }

  /** When the lower-cased text starts with a tag whose only colon is its
      last character, that position holds the text's first colon. */
  lemma TagThenColon(t: string, tag: string)
    requires |tag| >= 1 && tag[|tag| - 1] == ':' && ':' !in tag[..|tag| - 1]
    requires StartsWith(LowerAscii(t), tag)
    ensures MessageOf(t) == Trim(t[|tag|..])
  {
    var k := |tag| - 1;
    forall j | 0 <= j <= k ensures LowerChar(t[j]) == tag[j] {
      assert LowerAscii(t)[..|tag|][j] == tag[j];
    }
    assert t[k] == ':';
    assert ':' !in t[..k] by {
      forall j | 0 <= j < k ensures t[..k][j] != ':' {
        assert tag[..k][j] == tag[j];
      }
    }
    MessageAfterFirstColon(t, k);
  }

  /** A line of only white space is kept (it is not empty) and shown as an
      empty message from "Other". */
  lemma BlankLineShownEmpty(line: string)
    requires AllWhitespace(line)
    ensures RowOf(line) == Row(Other, "")
  {
    TrimAllWhitespace(line);
  }

  /** The placeholder appears only for an empty text; a text of line feeds
      alone renders an empty list. */
  lemma EmptyTexts(n: nat)
    ensures RenderTranscript("") == NoTranscript
    ensures n > 0 ==> RenderTranscript(seq(n, _ => '\n')) == Rows([])
  {
    if n > 0 {
      var s := seq(n, _ => '\n');
      SplitAllSeparators(s, '\n');
      NonEmptyOfEmpties(Split(s, '\n'));
    }
  }

  lemma {:induction false} SplitAllSeparators(s: string, c: char)
    requires forall i :: 0 <= i < |s| ==> s[i] == c
    ensures forall i :: 0 <= i < |Split(s, c)| ==> Split(s, c)[i] == ""
    decreases |s|
  {
    if s != [] {
      SplitAllSeparators(s[1..], c);
    }
  }

  lemma {:induction false} NonEmptyOfEmpties(parts: seq<string>)
    requires forall i :: 0 <= i < |parts| ==> parts[i] == ""
    ensures NonEmpty(parts) == []
  {
    if parts != [] {
      NonEmptyOfEmpties(parts[1..]);
    }
  }

  /** A two-line exchange with a blank line between: the blank piece is
      dropped, labels match in any case, and a later colon stays in the
      message. */
  lemma ExampleExchange(agentLine: string, customerLine: string, text: string)
    requires agentLine == "Agent: Hello" && customerLine == "CUSTOMER:Hi: there "
    requires text == agentLine + "\n\n" + customerLine
    ensures RenderTranscript(text) == Rows([Row(Agent, "Hello"), Row(Customer, "Hi: there")])
  {
    ExampleLines(agentLine, customerLine, text);
    ExampleAgentRow(agentLine);
    ExampleCustomerRow(customerLine);
    RenderTwoLines(text, agentLine, customerLine, Row(Agent, "Hello"), Row(Customer, "Hi: there"));
  }

  lemma RenderTwoLines(text: string, x: string, y: string, rx: Row, ry: Row)
    requires text != "" && Lines(text) == [x, y]
    requires RowOf(x) == rx && RowOf(y) == ry
    ensures RenderTranscript(text) == Rows([rx, ry])
  {
    assert RowsOf([x, y]) == [rx, ry];
  }

  lemma ExampleLines(a: string, b: string, text: string)
    requires a == "Agent: Hello" && b == "CUSTOMER:Hi: there "
    requires text == a + "\n\n" + b
    ensures Lines(text) == [a, b]
  {
    assert '\n' !in a && '\n' !in b;
    LinesAroundBlank(a, b, text);
  }

  /** An empty line between two lines is dropped. */
  lemma LinesAroundBlank(a: string, b: string, text: string)
    requires a != "" && b != "" && '\n' !in a && '\n' !in b
    requires text == a + "\n\n" + b
    ensures Lines(text) == [a, b]
  {
    SplitAroundBlank(a, b, text);
    var parts := [a, "", b];
    assert parts[1..] == ["", b] && parts[1..][1..] == [b] && [b][1..] == [];
    assert NonEmpty(parts) == [a] + NonEmpty(["", b]);
  }

  lemma SplitAroundBlank(a: string, b: string, text: string)
    requires '\n' !in a && '\n' !in b
    requires text == a + "\n\n" + b
    ensures Split(text, '\n') == [a, "", b]
  {
    assert text[..|a|] == a && text[|a|] == '\n';
    SplitAtFirst(text, '\n', |a|);
    var rest := text[|a| + 1..];
    assert rest[..0] == "" && rest[0] == '\n' && rest[1..] == b;
    SplitAtFirst(rest, '\n', 0);
    NoSepSplit(b, '\n');
  }

  lemma ExampleAgentRow(a: string)
    requires a == "Agent: Hello"
    ensures RowOf(a) == Row(Agent, "Hello")
  {
    TrimNoEdges(a);
    ExampleAgentSpeaker(a);
    ExampleAgentMessage(a);
    ExampleTrimmed(a[6..], "Hello");
  }

  lemma ExampleAgentSpeaker(a: string)
    requires a == "Agent: Hello"
    ensures SpeakerOf(a) == Agent
  {
    assert LowerAscii(a)[..6] == AgentPrefix;
  }

  lemma ExampleAgentMessage(a: string)
    requires a == "Agent: Hello"
    ensures MessageOf(a) == Trim(a[6..]) && a[6..] == " Hello"
  {
    AgentMessageParts(a, a[..6], a[6..]);
  }

  lemma AgentMessageParts(t: string, tag: string, m: string)
    requires tag == "Agent:" && m == " Hello" && t == tag + m
    ensures MessageOf(t) == Trim(m)
  {
    assert LowerAscii(t)[..6] == AgentPrefix;
    assert t[6..] == m;
    LabelledMessage(t, AgentPrefix);
  }

  lemma ExampleTrimmed(s: string, t: string)
    requires s == " Hello" && t == "Hello"
    ensures Trim(s) == t
  {
    assert s[1..] == t;
    TrimDropsLeading(s, t);
  }

  /** One white-space character in front of an already trimmed string. */
  lemma TrimDropsLeading(s: string, t: string)
    requires s != "" && IsJsWhitespace(s[0]) && s[1..] == t
    requires t != "" && !IsJsWhitespace(t[0]) && !IsJsWhitespace(t[|t| - 1])
    ensures Trim(s) == t
  {
    assert TrimStart(s) == TrimStart(t) == t;
    TrimNoEdges(t);
  }

  /** One white-space character after an already trimmed string. */
  lemma TrimDropsTrailing(s: string, t: string)
    requires s != "" && IsJsWhitespace(s[|s| - 1]) && s[..|s| - 1] == t
    requires t != "" && !IsJsWhitespace(t[0]) && !IsJsWhitespace(t[|t| - 1])
    ensures Trim(s) == t
  {
    assert s[0] == t[0];
    assert TrimStart(s) == s;
    assert TrimEnd(s) == TrimEnd(t) == t;
  }

  lemma ExampleCustomerRow(b: string)
    requires b == "CUSTOMER:Hi: there "
    ensures RowOf(b) == Row(Customer, "Hi: there")
  {
    var t := b[..|b| - 1];
    ExampleCustomerTrim(b, t);
    ExampleCustomerSpeaker(t);
    ExampleCustomerMessage(t);
    TrimNoEdges(t[9..]);
  }

  lemma ExampleCustomerTrim(b: string, t: string)
    requires b == "CUSTOMER:Hi: there " && t == b[..|b| - 1]
    ensures Trim(b) == t
  {
    TrimDropsTrailing(b, t);
  }

  lemma ExampleCustomerSpeaker(t: string)
    requires t == "CUSTOMER:Hi: there"
    ensures SpeakerOf(t) == Customer
  {
    assert LowerAscii(t)[..6][0] == LowerChar(t[0]) != AgentPrefix[0];
    assert LowerAscii(t)[..9] == CustomerPrefix;
  }

  lemma ExampleCustomerMessage(t: string)
    requires t == "CUSTOMER:Hi: there"
    ensures MessageOf(t) == Trim(t[9..]) && t[9..] == "Hi: there"
  {
    CustomerMessageParts(t, t[..9], t[9..]);
  }

  lemma CustomerMessageParts(t: string, tag: string, m: string)
    requires tag == "CUSTOMER:" && m == "Hi: there" && t == tag + m
    ensures MessageOf(t) == Trim(m)
  {
    assert LowerAscii(t)[..9] == CustomerPrefix;
    assert t[9..] == m;
    LabelledMessage(t, CustomerPrefix);
  }

  lemma NoSepSplit(s: string, sep: char)
    requires sep !in s
    ensures Split(s, sep) == [s]
  {
    JoinSplit(s, sep);
    SplitPiecesCount(s, sep);
  }

  lemma {:induction false} SplitPiecesCount(s: string, sep: char)
    requires sep !in s
    ensures |Split(s, sep)| == 1
    decreases |s|
  {
    if s != [] {
      SplitPiecesCount(s[1..], sep);
    }
  }
}
