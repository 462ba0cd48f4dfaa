/** The preparation of playlist text for the AI extraction service and the handling
    of its answer: an M3U file is cut into lines, the lines that can describe a song
    are kept and the first fifty go into the prompt; free-form playlist text is cut to
    15000 characters; a user instruction is appended when there is one; every item of
    the answer becomes a pending entry with a fresh id, and a failed or empty answer
    gives no entries. The wording of the prompt and the service itself are parameters. */
module GeminiService {
  import opened Builtins
  import opened Types
  import PlaylistManager

  /** The line without the carriage return that ends it, if any. */
  function DropCarriageReturn(line: string): (r: string)
    ensures r == line || (line == r + "\r")
  {
    if line != [] && line[|line| - 1] == '\r' then line[..|line| - 1] else line
  }

  /** `content.split(/\r?\n/)`: pieces between line feeds, a carriage return just
      before a line feed belonging to the separator. */
  function SplitCrLf(s: string): (r: seq<string>)
    ensures |r| >= 1
    decreases |s|
  {
    if '\n' !in s then [s]
    else
      var i := LineEnd(s);
      [DropCarriageReturn(s[..i])] + SplitCrLf(s[i + 1..])
  }

  /** Every line but the last without its closing carriage return. */
  function DropCarriageReturns(lines: seq<string>): (r: seq<string>)
    ensures |r| == |lines|
    ensures forall k :: 0 <= k < |r| - 1 ==> r[k] == DropCarriageReturn(lines[k])
    ensures |r| > 0 ==> r[|r| - 1] == lines[|lines| - 1]
  {
    if |lines| <= 1 then lines
    else
      var r := [DropCarriageReturn(lines[0])] + DropCarriageReturns(lines[1..]);
      assert forall k :: 1 <= k < |r| ==> r[k] == DropCarriageReturns(lines[1..])[k - 1];
      r
  }

  /** The pieces are those of a split at line feeds, each but the last without a
      closing carriage return. */
  lemma {:induction false} SplitCrLfOfSplitLines(s: string)
    ensures SplitCrLf(s) == DropCarriageReturns(SplitLines(s))
    decreases |s|
  {
    if '\n' in s {
      var i := LineEnd(s);
      SplitCrLfOfSplitLines(s[i + 1..]);
      DropCarriageReturnsCons(s[..i], SplitLines(s[i + 1..]));
    }
  }

  lemma DropCarriageReturnsCons(line: string, rest: seq<string>)
    requires rest != []
    ensures DropCarriageReturns([line] + rest) == [DropCarriageReturn(line)] + DropCarriageReturns(rest)
  {
    assert ([line] + rest)[1..] == rest;
  }

  /** `lines.join('\r\n')`. */
  function JoinCrLf(lines: seq<string>): string {
    if lines == [] then "" else if |lines| == 1 then lines[0] else lines[0] + "\r\n" + JoinCrLf(lines[1..])
  }

  /** Lines written with Windows line ends are read back as they were written. */
  lemma {:induction false} SplitJoinCrLf(lines: seq<string>)
    requires |lines| >= 1
    requires forall k :: 0 <= k < |lines| ==> '\n' !in lines[k] && DropCarriageReturn(lines[k]) == lines[k]
    ensures SplitCrLf(JoinCrLf(lines)) == lines
  {
    if |lines| > 1 {
      SplitJoinCrLf(lines[1..]);
      SplitAfterCrLf(lines[0], JoinCrLf(lines[1..]));
      assert lines == [lines[0]] + lines[1..];
    }
  }

  /** Splitting at a first line that ends in a carriage return and a line feed. */
  lemma SplitAfterCrLf(h: string, rest: string)
    requires '\n' !in h
    ensures SplitCrLf(h + "\r\n" + rest) == [DropCarriageReturn(h + "\r")] + SplitCrLf(rest)
  {
    var t := h + "\r\n" + rest;
    assert forall k :: 0 <= k < |h| ==> t[k] == h[k];
    assert t[|h|] == '\r' && t[|h| + 1] == '\n';
    var i := LineEnd(t);
    assert forall j :: 0 <= j < i ==> t[..i][j] == t[j];
    assert t[..i] == h + "\r";
    assert t[i + 1..] == rest;
  }

  /** The M3U line filter: an `#EXTINF` line (after trimming), or any non-blank line
      that does not itself begin with `#`. */
  predicate KeepLine(line: string) {
    StartsWith(Trim(line), "#EXTINF") || (Trim(line) != [] && !StartsWith(line, "#"))
  }

  /** The lines of an M3U file that can describe a song, in file order. */
  function KeptLines(content: string): (r: seq<string>)
    ensures forall k :: 0 <= k < |r| ==> KeepLine(r[k])
  {
    Filter(SplitCrLf(content), KeepLine)
  }

  /** No kept line holds a line feed. */
  lemma KeptLinesNoLineFeed(content: string)
    ensures forall k :: 0 <= k < |KeptLines(content)| ==> '\n' !in KeptLines(content)[k]
  {
    var kept := KeptLines(content);
    forall k | 0 <= k < |kept| ensures '\n' !in kept[k] {
      FilterMembers(SplitCrLf(content), KeepLine, kept[k]);
      PiecesHaveNoLineFeed(content, kept[k]);
    }
  }

  /** A line is kept exactly when it is a line of the file that passes the filter. */
  lemma KeptLinesMembers(content: string, line: string)
    ensures line in KeptLines(content) <==> line in SplitCrLf(content) && KeepLine(line)
  {
    FilterMembers(SplitCrLf(content), KeepLine, line);
  }

  /** Blank lines and comment lines other than `#EXTINF` are dropped, every other
      line is kept. Only the raw line's first character is tested for `#`, so a
      comment indented by white space is kept. */
  lemma KeepLineCases(line: string)
    ensures Trim(line) == [] ==> !KeepLine(line)
    ensures StartsWith(line, "#") ==> (KeepLine(line) <==> StartsWith(Trim(line), "#EXTINF"))
    ensures Trim(line) != [] && !StartsWith(line, "#") ==> KeepLine(line)
  {
  }

  const M3UHeader: string := "#EXTM3U"

  /** The M3U header line is dropped ... */
  lemma HeaderDropped()
    ensures !KeepLine(M3UHeader)
  {
    assert M3UHeader[4] != "#EXTINF"[4];
    assert TrimEnd(M3UHeader) == M3UHeader;
    assert Trim(M3UHeader) == M3UHeader;
  }

  /** ... but kept once indented, as only the raw line's first character is tested. */
  lemma IndentedHeaderKept()
    ensures KeepLine(" " + M3UHeader)
  {
    var indented := " " + M3UHeader;
    assert indented[1..] == M3UHeader;
    assert SpaceRun(M3UHeader) == 0;
    assert SpaceRun(indented) == 1;
    assert TrimEnd(M3UHeader) == M3UHeader;
    assert TrimStart(indented) == M3UHeader;
  }

  const SampleLimit: nat := 50

  /** The kept lines that go into the prompt: the first fifty. */
  function FirstKept(content: string): (r: seq<string>)
    ensures |r| <= SampleLimit
    ensures var kept := KeptLines(content); |kept| <= SampleLimit ==> r == kept
  {
    var kept := KeptLines(content);
    kept[..if |kept| <= SampleLimit then |kept| else SampleLimit]
  }

  /** `lines.slice(0, 50).join('\n')`. */
  function M3USample(content: string): string {
    JoinLines(FirstKept(content))
  }

  /** The sample holds the first fifty kept lines, one per line, in file order. */
  lemma M3USampleLines(content: string)
    requires KeptLines(content) != []
    ensures var kept := KeptLines(content);
      SplitLines(M3USample(content)) == kept[..if |kept| <= SampleLimit then |kept| else SampleLimit]
  {
    KeptLinesNoLineFeed(content);
    var first := FirstKept(content);
    assert forall k :: 0 <= k < |first| ==> first[k] == KeptLines(content)[k];
    JoinSplit(first);
  }

  lemma PiecesHaveNoLineFeed(s: string, piece: string)
    requires piece in SplitCrLf(s)
    ensures '\n' !in piece
  {
    SplitCrLfOfSplitLines(s);
    var k :| 0 <= k < |SplitCrLf(s)| && SplitCrLf(s)[k] == piece;
    assert '\n' !in SplitLines(s)[k];
    if k < |SplitCrLf(s)| - 1 {
      assert piece == DropCarriageReturn(SplitLines(s)[k]);
      assert forall j :: 0 <= j < |piece| ==> piece[j] == SplitLines(s)[k][j];
    }
  }

  const RawLimit: nat := 15000

  /** `content.slice(0, 15000)`. */
  function RawSample(content: string): (r: string)
    ensures |r| == if |content| <= RawLimit then |content| else RawLimit
    ensures r == content[..|r|]
  {
    if |content| <= RawLimit then content else content[..RawLimit]
  }

  /** A text within the limit goes in whole, and cutting twice cuts no further. */
  lemma RawSampleIdempotent(content: string)
    ensures |content| <= RawLimit ==> RawSample(content) == content
    ensures RawSample(RawSample(content)) == RawSample(content)
  {
  }

  const InstructionLead: string := "\n\nIMPORTANT USER INSTRUCTION: "

  /** The prompt with the user's instruction appended, when there is one. */
  function WithInstruction(prompt: string, instruction: string): (r: string)
    ensures |prompt| <= |r| && r[..|prompt|] == prompt
    ensures instruction == [] <==> r == prompt
    ensures instruction != [] ==> r[|prompt|..] == InstructionLead + instruction
  {
    if instruction != [] then prompt + InstructionLead + instruction else prompt
  }

  /** The service's answer: a failure (any exception, including unparsable JSON), or
      its text together with the items it decodes to, if it decodes to an array. */
  datatype Reply = Failed | Answered(text: string, items: Option<seq<PlaylistManager.JsonItem>>)

  /** A partial playlist entry: the item's own fields, a fresh id and a status. */
  datatype AiEntry = AiEntry(fields: PlaylistManager.JsonItem, id: string, status: Status)

  /** Every decoded item becomes a pending entry carrying the id generated for it;
      a failure, an empty text or an answer that is not an array gives nothing. */
  function Decorate(reply: Reply, newId: nat -> string): (r: seq<AiEntry>)
    ensures reply.Failed? || reply.text == [] || reply.items.None? ==> r == []
    ensures reply.Answered? && reply.text != [] && reply.items.Some? ==>
      (|r| == |reply.items.value|
      && forall k :: 0 <= k < |r| ==> r[k] == AiEntry(reply.items.value[k], newId(k), Pending))
  {
    match reply
    case Failed => []
    case Answered(text, items) =>
      if text == [] || items.None? then []
      else seq(|items.value|, k requires 0 <= k < |items.value| => AiEntry(items.value[k], newId(k), Pending))
  }

  /** `parseM3UContent`: `template` stands for the fixed wording placed around the
      sample lines, `ask` for the service. */
  function ParseM3UContent(content: string, instruction: string, template: string -> string,
                           ask: string -> Reply, newId: nat -> string): (r: seq<AiEntry>)
    ensures forall k :: 0 <= k < |r| ==> r[k].status == Pending
  {
    Decorate(ask(WithInstruction(template(M3USample(content)), instruction)), newId)
  }

  /** `parseRawPlaylistData`, with the same parameters. */
  function ParseRawPlaylistData(content: string, instruction: string, template: string -> string,
                                ask: string -> Reply, newId: nat -> string): (r: seq<AiEntry>)
    ensures forall k :: 0 <= k < |r| ==> r[k].status == Pending
  {
    Decorate(ask(WithInstruction(template(RawSample(content)), instruction)), newId)
  }
}
