/** The line parser of the shell: splitting a line into tokens and grouping tokens into piped commands. */
module ShellParser {

  const TOKEN_BUF_SIZE := 32
  const ARGS_BUF_SIZE := 32

  /** A `char*` that may be NULL. */
  datatype Ptr = Null | Text(text: string)

  function Texts(words: seq<string>): (ps: seq<Ptr>)
    ensures |ps| == |words| && forall i :: 0 <= i < |words| ==> ps[i] == Text(words[i])
  {
    seq(|words|, i requires 0 <= i < |words| => Text(words[i]))
  }

  // ----- Tokens --------------------------------------------------------------------------------------

  predicate IsDelimiter(c: char) {
    c == ' ' || c == '\t' || c == '\r' || c == '\n' || c == '\U{0007}'
  }

  /** The length of the longest prefix without delimiters. */
  function WordLength(line: string): (n: nat)
    ensures n <= |line|
    ensures forall i :: 0 <= i < n ==> !IsDelimiter(line[i])
    ensures n < |line| ==> IsDelimiter(line[n])
  {
    if line == [] || IsDelimiter(line[0]) then 0 else 1 + WordLength(line[1..])
  }

  function GapLength(line: string): (n: nat)
    ensures n <= |line|
    ensures forall i :: 0 <= i < n ==> IsDelimiter(line[i])
    ensures n < |line| ==> !IsDelimiter(line[n])
  {
    if line == [] || !IsDelimiter(line[0]) then 0 else 1 + GapLength(line[1..])
  }

  /** One call of `strtok`: the next token, if any, and where the following call goes on. */
  function Strtok(line: string): (r: (Ptr, string))
    ensures r.0.Text? ==> |r.1| < |line|
  {
    var rest := line[GapLength(line)..];
    if rest == [] then (Null, []) else
      var n := WordLength(rest);
      (Text(rest[..n]), rest[n..])
  }

  function Tokens(line: string): seq<string>
    decreases |line|, 0
  {
    var (token, rest) := Strtok(line);
    if token.Null? then [] else [token.text] + Tokens(rest)
  }

  /** The tokens still to come once `token` was found and `rest` is left. */
  function Following(token: Ptr, rest: string): seq<string> {
    match token
    case Null => []
    case Text(t) => [t] + Tokens(rest)
  }

  // ----- Commands ------------------------------------------------------------------------------------

  datatype Block = Block(args: seq<string>, inRedirected: bool, outRedirected: bool, outAppended: bool,
                         piped: bool, inFile: Ptr, outFile: Ptr)

  const EmptyBlock := Block([], false, false, false, false, Null, Null)

  function ArgumentOf(tokens: seq<string>): Ptr {
    if |tokens| > 1 then Text(tokens[1]) else Null
  }

  function AfterArgument(tokens: seq<string>): seq<string>
    requires |tokens| > 0
  {
    if |tokens| > 1 then tokens[2..] else []
  }

  /** What one token (and the file name after a redirection) does to the current block; not for `|`. */
  function Absorb(tokens: seq<string>, cur: Block): Block
    requires |tokens| > 0
  {
    var t := tokens[0];
    if t == "<<" || t == "<" then cur.(inRedirected := true, inFile := ArgumentOf(tokens))
    else if t == ">" then cur.(outRedirected := true, outFile := ArgumentOf(tokens))
    else if t == ">>" then cur.(outAppended := true, outFile := ArgumentOf(tokens))
    else cur.(args := cur.args + [t])
  }

  predicate IsRedirection(t: string) { t == "<<" || t == "<" || t == ">" || t == ">>" }

  /** The blocks that the grouping loop makes of the remaining tokens, starting with block `cur`. */
  function Group(tokens: seq<string>, cur: Block): seq<Block>
    decreases |tokens|
  {
    if tokens == [] then [cur]
    else if tokens[0] == "|" then [cur.(piped := true)] + Group(tokens[1..], EmptyBlock)
    else if IsRedirection(tokens[0]) then Group(AfterArgument(tokens), Absorb(tokens, cur))
    else Group(tokens[1..], Absorb(tokens, cur))
  }

  /** A NULL result, or the blocks and whether the background flag is set. */
  datatype Parsed = Nothing | Commands(blocks: seq<Block>, background: bool)

  function Commandize(tokens: seq<string>): Parsed {
    if tokens == [] then Nothing
    else if tokens[|tokens| - 1] == "&" then Commands(Group(tokens[..|tokens| - 1], EmptyBlock), true)
    else Commands(Group(tokens, EmptyBlock), false)
  }

  function ParseLine(line: string): Parsed { Commandize(Tokens(line)) }

  // ----- Writing a line ------------------------------------------------------------------------------

  /** Blank, tab, carriage return, line feed and bell. */
  const DELIMITERS := " \t\r\n\U{0007}"

  /** What a user writes in a command, in any order. The file is NULL if nothing follows the operator. */
  datatype Part =
    | Word(word: string)
    | Input(op: string, file: Ptr)
    | Output(op: string, file: Ptr)

  predicate IsToken(w: string) {
    w != [] && forall i :: 0 <= i < |w| ==> w[i] !in DELIMITERS
  }

  predicate IsGap(gap: string) {
    forall i :: 0 <= i < |gap| ==> gap[i] in DELIMITERS
  }

  /** A word is any token but a pipe or a redirection; a file is any token. */
  predicate PartOk(part: Part) {
    match part
    case Word(word) => IsToken(word) && word != "|" && word != "<" && word != "<<" && word != ">" && word != ">>"
    case Input(op, file) => (op == "<" || op == "<<") && (file.Text? ==> IsToken(file.text))
    case Output(op, file) => (op == ">" || op == ">>") && (file.Text? ==> IsToken(file.text))
  }

  predicate IsComplete(part: Part) { part.Word? || part.file.Text? }

  /** Only at the very end of a line an operator can be without a file. */
  predicate CommandOk(parts: seq<Part>, last: bool) {
    forall i :: 0 <= i < |parts| ==> PartOk(parts[i]) && (IsComplete(parts[i]) || (last && i + 1 == |parts|))
  }

  predicate PipelineOk(p: seq<seq<Part>>) {
    p != [] && forall i :: 0 <= i < |p| ==> CommandOk(p[i], i + 1 == |p|)
  }

  function FileTokens(file: Ptr): seq<string> { if file.Null? then [] else [file.text] }

  function PartTokens(part: Part): seq<string> {
    match part
    case Word(word) => [word]
    case Input(op, file) => [op] + FileTokens(file)
    case Output(op, file) => [op] + FileTokens(file)
  }

  function CommandTokens(parts: seq<Part>): seq<string> {
    if parts == [] then [] else PartTokens(parts[0]) + CommandTokens(parts[1..])
  }

  function PipelineTokens(p: seq<seq<Part>>): seq<string>
    requires p != []
  {
    if |p| == 1 then CommandTokens(p[0]) else CommandTokens(p[0]) + (["|"] + PipelineTokens(p[1..]))
  }

  function AllTokens(p: seq<seq<Part>>, background: bool): seq<string>
    requires p != []
  {
    PipelineTokens(p) + if background then ["&"] else []
  }

  predicate EndsInAmpersand(tokens: seq<string>) { tokens != [] && tokens[|tokens| - 1] == "&" }

  /** `gaps[i]` is written before token `i`, and `tail` at the end. Only the first gap and the tail may be empty. */
  predicate GapsOk(gaps: seq<string>, tail: string, n: nat) {
    && |gaps| == n && IsGap(tail)
    && (forall i :: 0 <= i < n ==> IsGap(gaps[i]))
    && (forall i :: 1 <= i < n ==> gaps[i] != [])
  }

  function Write(tokens: seq<string>, gaps: seq<string>, tail: string): string
    requires |gaps| == |tokens|
  {
    if tokens == [] then tail else gaps[0] + (tokens[0] + Write(tokens[1..], gaps[1..], tail))
  }

  /** The words, the input redirections and the output redirections of a command, each in their order. */
  function Words(parts: seq<Part>): seq<string> {
    if parts == [] then [] else (if parts[0].Word? then [parts[0].word] else []) + Words(parts[1..])
  }

  function Inputs(parts: seq<Part>): (rs: seq<Part>)
    ensures forall i :: 0 <= i < |rs| ==> rs[i].Input?
  {
    if parts == [] then [] else (if parts[0].Input? then [parts[0]] else []) + Inputs(parts[1..])
  }

  function Outputs(parts: seq<Part>): (rs: seq<Part>)
    ensures forall i :: 0 <= i < |rs| ==> rs[i].Output?
  {
    if parts == [] then [] else (if parts[0].Output? then [parts[0]] else []) + Outputs(parts[1..])
  }

  /** The file of the last redirection. */
  function LastFile(rs: seq<Part>): Ptr
    requires forall i :: 0 <= i < |rs| ==> !rs[i].Word?
  {
    if rs == [] then Null else rs[|rs| - 1].file
  }

  predicate UsesOp(rs: seq<Part>, op: string)
    requires forall i :: 0 <= i < |rs| ==> !rs[i].Word?
  {
    exists i :: 0 <= i < |rs| && rs[i].op == op
  }

  /** A command as the parser represents it. */
  function BlockOf(parts: seq<Part>, piped: bool): Block {
    Block(Words(parts), Inputs(parts) != [], UsesOp(Outputs(parts), ">"), UsesOp(Outputs(parts), ">>"), piped,
          LastFile(Inputs(parts)), LastFile(Outputs(parts)))
  }

  function BlocksOf(p: seq<seq<Part>>): (bs: seq<Block>)
    ensures |bs| == |p|
    ensures forall i :: 0 <= i < |p| ==> bs[i] == BlockOf(p[i], i + 1 < |p|)
  {
    seq(|p|, i requires 0 <= i < |p| => BlockOf(p[i], i + 1 < |p|))
  }

  // ----- Round trip ----------------------------------------------------------------------------------

  lemma DelimiterIff(c: char)
    ensures IsDelimiter(c) <==> c in DELIMITERS
  {
    assert DELIMITERS[0] == ' ' && DELIMITERS[1] == '\t' && DELIMITERS[2] == '\r' && DELIMITERS[3] == '\n';
    assert DELIMITERS[4] == '\U{0007}';
  }

  lemma AllDelimiters(gap: string)
    requires IsGap(gap)
    ensures forall i :: 0 <= i < |gap| ==> IsDelimiter(gap[i])
  {
    forall i | 0 <= i < |gap|
      ensures IsDelimiter(gap[i])
    {
      DelimiterIff(gap[i]);
    }
  }

  lemma NoDelimiters(w: string)
    requires IsToken(w)
    ensures forall i :: 0 <= i < |w| ==> !IsDelimiter(w[i])
  {
    forall i | 0 <= i < |w|
      ensures !IsDelimiter(w[i])
    {
      DelimiterIff(w[i]);
    }
  }

  lemma TokensSkipGap(gap: string, rest: string)
    requires IsGap(gap)
    ensures Tokens(gap + rest) == Tokens(rest)
  {
    AllDelimiters(gap);
    var g, n := GapLength(gap + rest), GapLength(rest);
    assert forall i :: 0 <= i < |gap| ==> (gap + rest)[i] == gap[i];
    assert forall i :: 0 <= i < |rest| ==> (gap + rest)[|gap| + i] == rest[i];
    assert g >= |gap|;
    assert g == |gap| + n;
    assert (gap + rest)[g..] == rest[n..];
  }

  lemma TokensTakeWord(w: string, rest: string)
    requires IsToken(w) && (rest != [] ==> rest[0] in DELIMITERS)
    ensures Tokens(w + rest) == [w] + Tokens(rest)
  {
    NoDelimiters(w);
    if rest != [] {
      DelimiterIff(rest[0]);
    }
    hide IsToken, DELIMITERS;
    var line := w + rest;
    assert forall i :: 0 <= i < |w| ==> line[i] == w[i];
    assert GapLength(line) == 0;
    assert line[0..] == line;
    var n := WordLength(line);
    assert rest != [] ==> line[|w|] == rest[0];
    assert n == |w|;
    assert line[..n] == w && line[n..] == rest;
  }

  lemma WrittenStarts(tokens: seq<string>, gaps: seq<string>, tail: string)
    requires |gaps| == |tokens| && IsGap(tail) && forall i :: 0 <= i < |tokens| ==> IsGap(gaps[i]) && gaps[i] != []
    ensures var rest := Write(tokens, gaps, tail); rest != [] ==> rest[0] in DELIMITERS
  {
    hide DELIMITERS;
    if tokens != [] {
      assert Write(tokens, gaps, tail)[0] == gaps[0][0];
    }
  }

  lemma {:induction false} TokensOfWritten(tokens: seq<string>, gaps: seq<string>, tail: string)
    requires GapsOk(gaps, tail, |tokens|) && TokensOk(tokens)
    ensures Tokens(Write(tokens, gaps, tail)) == tokens
  {
    if tokens == [] {
      TokensSkipGap(tail, "");
      assert tail + "" == tail;
    } else {
      var rest := Write(tokens[1..], gaps[1..], tail);
      WrittenStarts(tokens[1..], gaps[1..], tail);
      hide IsToken, IsGap, Tokens;
      TokensOfWritten(tokens[1..], gaps[1..], tail);
      TokensSkipGap(gaps[0], tokens[0] + rest);
      TokensTakeWord(tokens[0], rest);
    }
  }

  /** Block `cur` with the parts of `b` after its own. */
  function Joined(cur: Block, b: Block): Block {
    Block(cur.args + b.args, cur.inRedirected || b.inRedirected, cur.outRedirected || b.outRedirected,
          cur.outAppended || b.outAppended, cur.piped,
          if b.inRedirected then b.inFile else cur.inFile,
          if b.outRedirected || b.outAppended then b.outFile else cur.outFile)
  }

  lemma SinglePart(part: Part)
    ensures BlockOf([part], false)
            == match part
               case Word(word) => EmptyBlock.(args := [word])
               case Input(_, file) => EmptyBlock.(inRedirected := true, inFile := file)
               case Output(op, file) =>
                 EmptyBlock.(outRedirected := op == ">", outAppended := op == ">>", outFile := file)
  {
    WordsOfOne(part);
    InputsOfOne(part);
    OutputsOfOne(part);
    hide Words, Inputs, Outputs;
  }

  lemma GroupPart(part: Part, rest: seq<string>, cur: Block)
    requires PartOk(part) && (IsComplete(part) || rest == [])
    ensures Group(PartTokens(part) + rest, cur) == Group(rest, Joined(cur, BlockOf([part], false)))
  {
    hide BlockOf, IsToken;
    SinglePart(part);
    var tokens := PartTokens(part) + rest;
    assert cur.args + [] == cur.args;
    if part.Word? {
      assert tokens[1..] == rest;
    } else if part.file.Text? {
      assert tokens[2..] == rest;
    }
  }

  lemma WordsOfOne(part: Part)
    ensures Words([part]) == if part.Word? then [part.word] else []
  {
    assert [part][1..] == [];
  }

  lemma WordsOfCons(part: Part, parts: seq<Part>)
    ensures Words([part] + parts) == Words([part]) + Words(parts)
  {
    assert ([part] + parts)[1..] == parts && [part][1..] == [];
  }

  lemma InputsOfOne(part: Part)
    ensures Inputs([part]) == if part.Input? then [part] else []
  {
    assert [part][1..] == [];
  }

  lemma InputsOfCons(part: Part, parts: seq<Part>)
    ensures Inputs([part] + parts) == Inputs([part]) + Inputs(parts)
  {
    assert ([part] + parts)[1..] == parts && [part][1..] == [];
  }

  lemma OutputsOfOne(part: Part)
    ensures Outputs([part]) == if part.Output? then [part] else []
  {
    assert [part][1..] == [];
  }

  lemma OutputsOfCons(part: Part, parts: seq<Part>)
    ensures Outputs([part] + parts) == Outputs([part]) + Outputs(parts)
  {
    assert ([part] + parts)[1..] == parts && [part][1..] == [];
  }

  lemma JoinedAssociates(a: Block, b: Block, c: Block)
    ensures Joined(Joined(a, b), c) == Joined(a, Joined(b, c))
  {
    assert (a.args + b.args) + c.args == a.args + (b.args + c.args);
  }

  lemma BlockOfCons(part: Part, parts: seq<Part>)
    requires CommandOk(parts, true)
    ensures BlockOf([part] + parts, false) == Joined(BlockOf([part], false), BlockOf(parts, false))
  {
    OutputsUseOps(parts);
    WordsOfCons(part, parts);
    InputsOfCons(part, parts);
    OutputsOfCons(part, parts);
    hide Words, Inputs, Outputs, UsesOp, LastFile, CommandOk;
    LastFileConcat(Inputs([part]), Inputs(parts));
    LastFileConcat(Outputs([part]), Outputs(parts));
    UsesOpConcat(Outputs([part]), Outputs(parts), ">");
    UsesOpConcat(Outputs([part]), Outputs(parts), ">>");
  }

  lemma {:induction false} OutputsUseOps(parts: seq<Part>)
    requires CommandOk(parts, true)
    ensures Outputs(parts) != [] <==> UsesOp(Outputs(parts), ">") || UsesOp(Outputs(parts), ">>")
  {
    OutputsAmong(parts);
    if Outputs(parts) != [] {
      assert Outputs(parts)[0] in parts && PartOk(Outputs(parts)[0]);
    }
  }

  lemma {:induction false} OutputsAmong(parts: seq<Part>)
    ensures forall r :: r in Outputs(parts) ==> r in parts
  {
    if parts == [] {
    } else {
      OutputsAmong(parts[1..]);
    }
  }

  lemma LastFileConcat(rs: seq<Part>, rs': seq<Part>)
    requires forall i :: 0 <= i < |rs| ==> !rs[i].Word?
    requires forall i :: 0 <= i < |rs'| ==> !rs'[i].Word?
    ensures LastFile(rs + rs') == if rs' != [] then LastFile(rs') else LastFile(rs)
  {
  }

  lemma UsesOpConcat(rs: seq<Part>, rs': seq<Part>, op: string)
    requires forall i :: 0 <= i < |rs| ==> !rs[i].Word?
    requires forall i :: 0 <= i < |rs'| ==> !rs'[i].Word?
    ensures UsesOp(rs + rs', op) <==> UsesOp(rs, op) || UsesOp(rs', op)
  {
    if UsesOp(rs', op) {
      var i :| 0 <= i < |rs'| && rs'[i].op == op;
      assert (rs + rs')[|rs| + i].op == op;
    }
    if UsesOp(rs, op) {
      var i :| 0 <= i < |rs| && rs[i].op == op;
      assert (rs + rs')[i].op == op;
    }
  }

  lemma {:induction false} GroupCommand(parts: seq<Part>, last: bool, rest: seq<string>, cur: Block)
    requires CommandOk(parts, last) && (last ==> rest == [])
    ensures Group(CommandTokens(parts) + rest, cur) == Group(rest, Joined(cur, BlockOf(parts, false)))
    decreases |parts|
  {
    if parts == [] {
      assert CommandTokens(parts) + rest == rest && cur.args + [] == cur.args;
    } else {
      hide Group, Joined, BlockOf, PartOk, IsComplete;
      var part, others := parts[0], parts[1..];
      var cur' := Joined(cur, BlockOf([part], false));
      assert CommandTokens(parts) + rest == PartTokens(part) + (CommandTokens(others) + rest);
      GroupPart(part, CommandTokens(others) + rest, cur);
      GroupCommand(others, last, rest, cur');
      BlockOfCons(part, others);
      JoinedAssociates(cur, BlockOf([part], false), BlockOf(others, false));
      assert [part] + others == parts;
    }
  }

  lemma FirstBlock(parts: seq<Part>)
    requires CommandOk(parts, true)
    ensures Joined(EmptyBlock, BlockOf(parts, false)) == BlockOf(parts, false)
    ensures BlockOf(parts, false).(piped := true) == BlockOf(parts, true)
  {
    OutputsUseOps(parts);
    hide Words, Inputs, Outputs, UsesOp, CommandOk;
    assert [] + Words(parts) == Words(parts);
  }

  lemma {:induction false} GroupPipeline(p: seq<seq<Part>>)
    requires PipelineOk(p)
    ensures Group(PipelineTokens(p), EmptyBlock) == BlocksOf(p)
    decreases |p|
  {
    hide BlockOf, Joined, CommandTokens;
    assert CommandOk(p[0], |p| == 1) && CommandOk(p[0], true);
    FirstBlock(p[0]);
    if |p| == 1 {
      GroupCommand(p[0], true, [], EmptyBlock);
      assert CommandTokens(p[0]) + [] == CommandTokens(p[0]);
    } else {
      var rest := ["|"] + PipelineTokens(p[1..]);
      GroupCommand(p[0], false, rest, EmptyBlock);
      assert rest[1..] == PipelineTokens(p[1..]);
      GroupPipeline(p[1..]);
      assert BlocksOf(p) == [BlockOf(p[0], true)] + BlocksOf(p[1..]);
    }
  }

  predicate TokensOk(tokens: seq<string>) {
    forall i :: 0 <= i < |tokens| ==> IsToken(tokens[i])
  }

  lemma {:induction false} CommandTokensOk(parts: seq<Part>)
    requires CommandOk(parts, true)
    ensures TokensOk(CommandTokens(parts))
  {
    if parts == [] {
    } else {
      CommandTokensOk(parts[1..]);
      assert PartOk(parts[0]) && TokensOk(PartTokens(parts[0]));
    }
  }

  lemma {:induction false} PipelineTokensOk(p: seq<seq<Part>>)
    requires PipelineOk(p)
    ensures TokensOk(PipelineTokens(p))
    decreases |p|
  {
    assert CommandOk(p[0], |p| == 1) && CommandOk(p[0], true);
    CommandTokensOk(p[0]);
    if |p| == 1 {
    } else {
      PipelineTokensOk(p[1..]);
      assert IsToken("|");
    }
  }

  /** A line of commands, with words and redirections in any order and any gaps between the tokens, is parsed back
      to its commands, their redirections and pipe flags, and the background flag. Of several redirections the last
      file counts. `EveryLineIsWritten` says that all lines are of this kind. */
  lemma RoundTrip(p: seq<seq<Part>>, background: bool, gaps: seq<string>, tail: string)
    requires PipelineOk(p) && (background || !EndsInAmpersand(PipelineTokens(p)))
    requires GapsOk(gaps, tail, |AllTokens(p, background)|)
    ensures ParseLine(Write(AllTokens(p, background), gaps, tail))
            == if AllTokens(p, background) == [] then Nothing else Commands(BlocksOf(p), background)
  {
    var ts := AllTokens(p, background);
    PipelineTokensOk(p);
    assert IsToken("&");
    TokensOfWritten(ts, gaps, tail);
    GroupPipeline(p);
    if background {
      assert ts[..|ts| - 1] == PipelineTokens(p);
    } else {
      assert ts == PipelineTokens(p);
    }
  }

  // ----- Every line ----------------------------------------------------------------------------------

  lemma GapFacts(line: string)
    ensures IsGap(line[..GapLength(line)])
    ensures line != [] && line[0] in DELIMITERS ==> GapLength(line) > 0
  {
    forall i | 0 <= i < |line|
      ensures line[i] in DELIMITERS <==> IsDelimiter(line[i])
    {
      DelimiterIff(line[i]);
    }
  }

  lemma WordFacts(line: string)
    requires line != [] && GapLength(line) == 0
    ensures WordLength(line) > 0 && IsToken(line[..WordLength(line)])
    ensures WordLength(line) < |line| ==> line[WordLength(line)] in DELIMITERS
  {
    forall i | 0 <= i < |line|
      ensures line[i] in DELIMITERS <==> IsDelimiter(line[i])
    {
      DelimiterIff(line[i]);
    }
  }

  lemma TokensStep(line: string)
    ensures var rest := line[GapLength(line)..];
            Tokens(line) == if rest == [] then [] else [rest[..WordLength(rest)]] + Tokens(rest[WordLength(rest)..])
  {
  }

  lemma NoGapAfterGap(line: string)
    ensures GapLength(line[GapLength(line)..]) == 0
  {
  }

  /** A line begins with a gap; then comes a token, if there is one. */
  lemma NextToken(line: string) returns (gap: string, word: string, rest: string)
    ensures IsGap(gap) && line == gap + (word + rest)
    ensures line != [] && line[0] in DELIMITERS ==> gap != []
    ensures word == [] ==> gap == line && Tokens(line) == []
    ensures word != [] ==> IsToken(word) && |rest| < |line| && Tokens(line) == [word] + Tokens(rest)
    ensures rest != [] ==> rest[0] in DELIMITERS
  {
    hide *;
    var g := GapLength(line);
    var text := line[g..];
    GapFacts(line);
    NoGapAfterGap(line);
    TokensStep(line);
    gap := line[..g];
    assert line == gap + text;
    if text == [] {
      word, rest := [], [];
    } else {
      var n := WordLength(text);
      WordFacts(text);
      word, rest := text[..n], text[n..];
      assert text == word + rest;
    }
  }

  /** `line` is its tokens with gaps. */
  predicate IsWritten(line: string, tokens: seq<string>, gaps: seq<string>, tail: string) {
    && TokensOk(tokens) && GapsOk(gaps, tail, |tokens|) && Write(tokens, gaps, tail) == line
    && (line != [] && line[0] in DELIMITERS && tokens != [] ==> gaps[0] != [])
  }

  lemma {:induction false} LineIsWritten(line: string) returns (gaps: seq<string>, tail: string)
    ensures IsWritten(line, Tokens(line), gaps, tail)
    decreases |line|
  {
    hide IsWritten, IsToken, IsGap, Tokens;
    var gap, word, rest := NextToken(line);
    if word == [] {
      gaps, tail := [], line;
      OnlyGap(line);
    } else {
      gaps, tail := LineIsWritten(rest);
      WrittenNext(gap, word, rest, Tokens(rest), gaps, tail);
      gaps := [gap] + gaps;
    }
  }

  lemma OnlyGap(line: string)
    requires IsGap(line)
    ensures IsWritten(line, [], [], line)
  {
  }

  lemma WrittenNext(gap: string, word: string, rest: string, tokens: seq<string>, gaps: seq<string>, tail: string)
    requires IsGap(gap) && IsToken(word) && (rest != [] ==> rest[0] in DELIMITERS)
    requires IsWritten(rest, tokens, gaps, tail)
    requires (gap + (word + rest))[0] in DELIMITERS ==> gap != []
    ensures IsWritten(gap + (word + rest), [word] + tokens, [gap] + gaps, tail)
  {
    hide IsToken, IsGap;
    assert ([word] + tokens)[1..] == tokens && ([gap] + gaps)[1..] == gaps;
    if tokens != [] && rest == [] {
      NeverEmpty(tokens, gaps, tail);
    }
  }

  lemma NeverEmpty(tokens: seq<string>, gaps: seq<string>, tail: string)
    requires TokensOk(tokens) && |gaps| == |tokens| && tokens != []
    ensures Write(tokens, gaps, tail) != []
  {
  }

  /** Every list of tokens is that of a pipeline. */
  lemma {:induction false} TokensArePipeline(tokens: seq<string>) returns (p: seq<seq<Part>>)
    requires TokensOk(tokens)
    ensures PipelineOk(p) && PipelineTokens(p) == tokens
    decreases |tokens|
  {
    if tokens == [] {
      p := [[]];
    } else if tokens[0] == "|" {
      p := TokensArePipeline(tokens[1..]);
      assert ([[]] + p)[1..] == p;
      assert tokens == ["|"] + tokens[1..];
      p := [[]] + p;
    } else {
      var part, n := FirstPart(tokens);
      var rest := TokensArePipeline(tokens[n..]);
      PrependPart(part, rest);
      p := rest[0 := [part] + rest[0]];
    }
  }

  lemma FirstPart(tokens: seq<string>) returns (part: Part, n: nat)
    requires TokensOk(tokens) && tokens != [] && tokens[0] != "|"
    ensures PartOk(part) && 0 < n <= |tokens| && PartTokens(part) + tokens[n..] == tokens
    ensures IsComplete(part) || tokens[n..] == []
  {
    var t := tokens[0];
    var file := if |tokens| > 1 then Text(tokens[1]) else Null;
    n := if |tokens| > 1 then 2 else 1;
    if t == "<" || t == "<<" {
      part := Input(t, file);
    } else if t == ">" || t == ">>" {
      part := Output(t, file);
    } else {
      part, n := Word(t), 1;
    }
  }

  lemma PrependPart(part: Part, p: seq<seq<Part>>)
    requires PartOk(part) && PipelineOk(p) && (IsComplete(part) || PipelineTokens(p) == [])
    ensures var p' := p[0 := [part] + p[0]];
            PipelineOk(p') && PipelineTokens(p') == PartTokens(part) + PipelineTokens(p)
  {
    var p' := p[0 := [part] + p[0]];
    assert CommandOk(p[0], |p| == 1);
    assert p'[0][1..] == p[0] && p'[1..] == p[1..];
    assert forall i :: 1 <= i < |p| ==> p'[i] == p[i];
  }

  /** There is no other line than those of which `RoundTrip` speaks. */
  lemma EveryLineIsWritten(line: string)
    returns (p: seq<seq<Part>>, background: bool, gaps: seq<string>, tail: string)
    ensures PipelineOk(p) && (background || !EndsInAmpersand(PipelineTokens(p)))
    ensures GapsOk(gaps, tail, |AllTokens(p, background)|) && line == Write(AllTokens(p, background), gaps, tail)
  {
    gaps, tail := LineIsWritten(line);
    var tokens := Tokens(line);
    hide Tokens, Write, IsGap, IsToken, PipelineOk, PipelineTokens;
    background := EndsInAmpersand(tokens);
    var n := if background then |tokens| - 1 else |tokens|;
    p := TokensArePipeline(tokens[..n]);
    assert AllTokens(p, background) == tokens;
  }

  /** For every token list, sensible or not: a block is flagged as piped exactly when another block follows. */
  lemma {:induction false} PipedIffNext(tokens: seq<string>, cur: Block)
    requires !cur.piped
    ensures var bs := Group(tokens, cur);
            bs != [] && forall i :: 0 <= i < |bs| ==> (bs[i].piped <==> i + 1 < |bs|)
    decreases |tokens|
  {
    if tokens == [] {
    } else if tokens[0] == "|" {
      PipedIffNext(tokens[1..], EmptyBlock);
    } else if IsRedirection(tokens[0]) {
      PipedIffNext(AfterArgument(tokens), Absorb(tokens, cur));
    } else {
      PipedIffNext(tokens[1..], Absorb(tokens, cur));
    }
  }

  // ----- The parser in place -------------------------------------------------------------------------

  /** `realloc`: a larger array with the same beginning. */
  method Grow(a: array<Ptr>, extra: nat) returns (b: array<Ptr>)
    ensures fresh(b) && b.Length == a.Length + extra
    ensures forall i :: 0 <= i < a.Length ==> b[i] == a[i]
  {
    b := new Ptr[a.Length + extra];
    for i := 0 to a.Length
      invariant forall k :: 0 <= k < i ==> b[k] == a[k]
    {
      b[i] := a[i];
    }
  }

  lemma FollowingStep(token: Ptr, rest: string)
    ensures var (token', rest') := Strtok(rest);
            && Tokens(rest) == Following(token', rest')
            && Following(token, rest) == if token.Null? then [] else [token.text] + Following(token', rest')
  {
  }

  /** Put one more token into the array, which grows when it is full. */
  method PutToken(tokens: array<Ptr>, pos: nat, token: Ptr) returns (tokens': array<Ptr>)
    requires pos < tokens.Length
    modifies tokens
    ensures tokens' == tokens || fresh(tokens')
    ensures pos + 1 < tokens'.Length && tokens'[pos] == token
    ensures forall i :: 0 <= i < pos ==> tokens'[i] == old(tokens[i])
  {
    tokens[pos] := token;
    tokens' := tokens;
    if pos + 1 >= tokens.Length {
      tokens' := Grow(tokens, TOKEN_BUF_SIZE);
    }
  }

  method Tokenize(line: string) returns (tokens: array<Ptr>, num: nat)
    ensures fresh(tokens) && num == |Tokens(line)| < tokens.Length
    ensures tokens[..num] == Texts(Tokens(line)) && tokens[num] == Null
  {
    hide Strtok, Tokens, Following;
    FollowingStep(Null, line);
    tokens := new Ptr[TOKEN_BUF_SIZE];
    var pos := 0;
    var (token, rest) := Strtok(line);
    ghost var done: seq<string> := [];
    while token != Null
      invariant fresh(tokens)
      invariant pos == |done| < tokens.Length
      invariant forall i :: 0 <= i < pos ==> tokens[i] == Text(done[i])
      invariant Tokens(line) == done + Following(token, rest)
      decreases if token != Null then 1 + |rest| else 0
    {
      FollowingStep(token, rest);
      tokens := PutToken(tokens, pos, token);
      pos := pos + 1;
      done := done + [token.text];
      var (token', rest') := Strtok(rest);
      token, rest := token', rest';
    }
    FollowingStep(token, rest);
    assert done + [] == done;
    tokens[pos] := Null;
    num := pos;
  }

  class CommandBlock {
    var args: array<Ptr>
    var numArgs: nat
    var inRedirected: bool
    var outRedirected: bool
    var outAppended: bool
    var piped: bool
    var inFile: Ptr
    var outFile: Ptr
    var next: CommandBlock?

    /** There is always room for one more argument and its terminator, and once there is an argument the
        list ends in NULL. */
    ghost predicate Valid()
      reads this, args
    {
      && numArgs + 1 < args.Length
      && (forall i :: 0 <= i < numArgs ==> args[i].Text?)
      && (numArgs > 0 ==> args[numArgs] == Null)
    }

    ghost function Args(): (ws: seq<string>)
      requires Valid()
      reads this, args
      ensures args[..numArgs] == Texts(ws)
    {
      seq(numArgs, i requires 0 <= i < numArgs && Valid() reads this, args => args[i].text)
    }

    ghost function Value(): Block
      requires Valid()
      reads this, args
    {
      Block(Args(), inRedirected, outRedirected, outAppended, piped, inFile, outFile)
    }

    constructor ()
      ensures Valid() && Value() == EmptyBlock && next == null && fresh(args)
    {
      args := new Ptr[ARGS_BUF_SIZE];
      numArgs := 0;
      inRedirected, outRedirected, outAppended, piped := false, false, false, false;
      inFile, outFile := Null, Null;
      next := null;
    }

    method PushArg(token: string)
      requires Valid()
      modifies this`args, this`numArgs, args
      ensures Valid() && (args == old(args) || fresh(args))
      ensures Value() == old(Value()).(args := old(Args()) + [token])
    {
      args[numArgs] := Text(token);
      numArgs := numArgs + 1;
      args[numArgs] := Null;
      if numArgs + 1 >= args.Length {
        args := Grow(args, ARGS_BUF_SIZE);
      }
      assert forall i :: 0 <= i < numArgs - 1 ==> args[i] == old(args[i]);
      assert Args() == old(Args()) + [token];
    }
  }

  ghost predicate Linked(b: CommandBlock, value: Block, next: CommandBlock?)
    reads b, b.args
  {
    b.Valid() && b.Value() == value && b.next == next
  }

  ghost function NextOf(bs: seq<CommandBlock>, k: nat, end: CommandBlock?): CommandBlock? {
    if k + 1 < |bs| then bs[k + 1] else end
  }

  lemma NextOfAppend(bs: seq<CommandBlock>, b: CommandBlock, end: CommandBlock?)
    ensures forall k :: 0 <= k < |bs| ==> NextOf(bs + [b], k, end) == NextOf(bs, k, b)
    ensures NextOf(bs + [b], |bs|, end) == end
  {
  }

  /** The tokens from position `i` on; a redirection at the end takes the position beyond the list. */
  function Rest(tokens: seq<string>, i: nat): seq<string> {
    if i <= |tokens| then tokens[i..] else []
  }

  lemma GroupStep(tokens: seq<string>, i: nat, cur: Block, done: seq<Block>)
    requires i < |tokens|
    ensures var rest := tokens[i..];
            Rest(tokens, i) == rest && rest[0] == tokens[i]
    ensures tokens[i] == "|" ==>
              done + Group(Rest(tokens, i), cur)
              == (done + [cur.(piped := true)]) + Group(Rest(tokens, i + 1), EmptyBlock)
    ensures tokens[i] != "|" ==>
              Group(Rest(tokens, i), cur)
              == Group(Rest(tokens, if IsRedirection(tokens[i]) then i + 2 else i + 1), Absorb(tokens[i..], cur))
  {
    assert tokens[i..][1..] == tokens[i + 1..];
    if |tokens| - i > 1 {
      assert tokens[i..][2..] == tokens[i + 2..];
    }
  }

  method NewBlock() returns (block: CommandBlock)
    ensures fresh(block) && fresh(block.args) && Linked(block, EmptyBlock, null)
  {
    block := new CommandBlock();
  }

  /** The turn of the grouping loop on a pipe. */
  method StartBlock(block: CommandBlock, ghost value: Block) returns (block': CommandBlock)
    requires Linked(block, value, null)
    modifies block
    ensures Linked(block, value.(piped := true), block') && block.args == old(block.args)
    ensures fresh(block') && fresh(block'.args) && Linked(block', EmptyBlock, null)
  {
    block.piped := true;
    block' := NewBlock();
    block.next := block';
  }

  /** The turn of the grouping loop on a redirection. */
  method AbsorbRedirection(block: CommandBlock, ghost value: Block, op: string, file: Ptr)
    requires Linked(block, value, null) && IsRedirection(op)
    modifies block
    ensures block.args == old(block.args)
    ensures Linked(block, if op == "<<" || op == "<" then value.(inRedirected := true, inFile := file)
                          else if op == ">" then value.(outRedirected := true, outFile := file)
                          else value.(outAppended := true, outFile := file), null)
  {
    if op == "<<" || op == "<" {
      block.inRedirected := true;
      block.inFile := file;
    } else if op == ">" {
      block.outRedirected := true;
      block.outFile := file;
    } else {
      block.outAppended := true;
      block.outFile := file;
    }
  }

  method AbsorbWord(block: CommandBlock, ghost value: Block, token: string)
    requires Linked(block, value, null)
    modifies block, block.args
    ensures block.args == old(block.args) || fresh(block.args)
    ensures Linked(block, value.(args := value.args + [token]), null)
  {
    block.PushArg(token);
  }

  /** One turn of the grouping loop on a token that is not a pipe. */
  method AbsorbToken(block: CommandBlock, ghost value: Block, tokens: array<Ptr>, i: nat, ghost rest: seq<string>)
    returns (next: nat)
    requires Linked(block, value, null) && block.args != tokens
    requires rest != [] && rest[0] != "|" && i + |rest| < tokens.Length && tokens[i + |rest|] == Null
    requires forall k :: 0 <= k < |rest| ==> tokens[i + k] == Text(rest[k])
    modifies block, block.args, tokens
    ensures Linked(block, Absorb(rest, value), null) && (block.args == old(block.args) || fresh(block.args))
    ensures next == if IsRedirection(rest[0]) then i + 2 else i + 1
    ensures forall k :: next <= k < tokens.Length ==> tokens[k] == old(tokens[k])
  {
    hide Linked;
    var token := tokens[i].text;
    assert token == rest[0];
    if IsRedirection(token) {
      assert tokens[i + 1] == ArgumentOf(rest);
      AbsorbRedirection(block, value, token, tokens[i + 1]);
      tokens[i] := Null;
      next := i + 2;
    } else {
      AbsorbWord(block, value, token);
      next := i + 1;
    }
  }

  /** The grouping loop: a chain of blocks, linked by `next` and ended by NULL, with the values of `Group`. */
  method GroupTokens(num: nat, tokens: array<Ptr>, ghost todo: seq<string>)
    returns (header: CommandBlock, ghost blocks: seq<CommandBlock>)
    requires num == |todo| < tokens.Length && tokens[num] == Null
    requires forall k :: 0 <= k < num ==> tokens[k] == Text(todo[k])
    modifies tokens
    ensures var values := Group(todo, EmptyBlock);
            && |blocks| == |values| > 0 && header == blocks[0]
            && forall k :: 0 <= k < |blocks| ==> Linked(blocks[k], values[k], NextOf(blocks, k, null))
  {
    hide Group, Absorb, Linked, NextOf, Rest, IsRedirection;
    var block := NewBlock();
    GroupStart(todo);
    ghost var value := EmptyBlock;
    header := block;
    ghost var earlier: seq<CommandBlock>, done: seq<Block> := [], [];
    var i := 0;
    while i < num
      invariant 0 <= i <= num + 1
      invariant i <= num ==> tokens[num] == Null
      invariant forall k :: i <= k < num ==> tokens[k] == Text(todo[k])
      invariant fresh(block) && fresh(block.args) && Linked(block, value, null)
      invariant |done| == |earlier|
      invariant forall k :: 0 <= k < |earlier| ==> fresh(earlier[k]) && fresh(earlier[k].args)
      invariant forall k :: 0 <= k < |earlier| ==> earlier[k] != block && earlier[k].args != block.args
      invariant forall k :: 0 <= k < |earlier| ==> Linked(earlier[k], done[k], NextOf(earlier, k, block))
      invariant header == (earlier + [block])[0]
      invariant Group(todo, EmptyBlock) == done + Group(Rest(todo, i), value)
      decreases num - i
    {
      ghost var rest := todo[i..];
      GroupStep(todo, i, value, done);
      if tokens[i] == Text("|") {
        var block' := StartBlock(block, value);
        NextOfAppend(earlier, block, block');
        tokens[i] := Null;
        earlier, done, value := earlier + [block], done + [value.(piped := true)], EmptyBlock;
        block := block';
        i := i + 1;
      } else {
        i := AbsorbToken(block, value, tokens, i, rest);
        value := Absorb(rest, value);
      }
    }
    blocks := earlier + [block];
    NextOfAppend(earlier, block, null);
    GroupEnd(todo, i, value);
  }

  method CommandizeTokens(num: nat, tokens: array<Ptr>, ghost words: seq<string>)
    returns (header: CommandBlock?, background: bool, ghost blocks: seq<CommandBlock>)
    requires num == |words| < tokens.Length
    requires tokens[..num] == Texts(words) && tokens[num] == Null
    modifies tokens
    ensures match Commandize(words)
            case Nothing => header == null && !background && tokens[..] == old(tokens[..])
            case Commands(values, bg) =>
              && background == bg
              && |blocks| == |values| > 0 && header == blocks[0]
              && forall k :: 0 <= k < |blocks| ==> Linked(blocks[k], values[k], NextOf(blocks, k, null))
  {
    hide Group, Linked, NextOf;
    if num == 0 {
      return null, false, [];
    }
    assert forall k :: 0 <= k < num ==> tokens[k] == tokens[..num][k];
    if tokens[num - 1] == Text("&") {
      tokens[num - 1] := Null;
      background := true;
      header, blocks := GroupTokens(num - 1, tokens, words[..num - 1]);
    } else {
      background := false;
      header, blocks := GroupTokens(num, tokens, words);
    }
  }

  /** `parseline`. */
  method Parse(line: string) returns (header: CommandBlock?, background: bool, ghost blocks: seq<CommandBlock>)
    ensures match ParseLine(line)
            case Nothing => header == null && !background
            case Commands(values, bg) =>
              && background == bg
              && |blocks| == |values| > 0 && header == blocks[0]
              && forall k :: 0 <= k < |blocks| ==> Linked(blocks[k], values[k], NextOf(blocks, k, null))
  {
    hide Linked, NextOf, Commandize, Tokens;
    var tokens, num := Tokenize(line);
    header, background, blocks := CommandizeTokens(num, tokens, Tokens(line));
  }

  lemma GroupStart(tokens: seq<string>)
    ensures Rest(tokens, 0) == tokens
    ensures Group(tokens, EmptyBlock) == [] + Group(Rest(tokens, 0), EmptyBlock)
  {
    assert tokens[0..] == tokens;
  }

  lemma GroupEnd(tokens: seq<string>, i: nat, cur: Block)
    requires i >= |tokens|
    ensures Group(Rest(tokens, i), cur) == [cur]
  {
  }
}
