/** ExtractJSON of internal/flow/step.go: finding a JSON document in an agent's answer. */
module Fence {
  import opened Wrappers
  import opened Text

  const TICKS := "```"
  const CLOSING := "\n```"

  /** Where the line that starts at `from` ends: the next newline, or the end of the text. */
  function LineEnd(s: string, from: nat): (e: nat)
    requires from <= |s|
    ensures from <= e <= |s|
    decreases |s| - from
  {
    if from == |s| || s[from] == '\n' then from else LineEnd(s, from + 1)
  }

  lemma {:induction false} LineEndIsNewline(s: string, from: nat)
    requires from <= |s|
    ensures var e := LineEnd(s, from); forall k :: from <= k < e ==> s[k] != '\n'
    decreases |s| - from
  {
    if from < |s| && s[from] != '\n' {
      LineEndIsNewline(s, from + 1);
    }
  }

  /** The line starts with a bracket or a brace, so not with backticks either. */
  predicate OpensJSON(line: string) {
    line != "" && (line[0] == '{' || line[0] == '[')
  }

  lemma OpensByPrefix(line: string)
    ensures OpensJSON(line) <==> !HasPrefix(line, TICKS) && (HasPrefix(line, "{") || HasPrefix(line, "["))
  {
    if line != "" {
      assert line[..1] == [line[0]];
    }
    if |line| >= 3 {
      assert line[..3][0] == line[0];
    }
  }

  /** The first line from position `from` on that opens a JSON document. */
  function OpeningLine(s: string, from: nat): Option<string>
    requires from <= |s|
    decreases |s| - from
  {
    var end := LineEnd(s, from);
    if OpensJSON(Trim(s[from..end])) then Some(Trim(s[from..end]))
    else if end < |s| then OpeningLine(s, end + 1)
    else None
  }

  /** The block that starts at the first occurrence of `line` and runs to the closing fence or the end. */
  function Block(s: string, line: string): string {
    match IndexOf(s, line)
    case None => ""
    case Some(start) =>
      var tail := s[start..];
      match IndexOf(tail, CLOSING)
      case None => tail
      case Some(end) => tail[..end]
  }

  function Checked(isJSON: string -> bool, s: string): string {
    if isJSON(s) then s else ""
  }

  function Extract(isJSON: string -> bool, text: string): string {
    var s := Trim(text);
    if s == "" then ""
    else if isJSON(s) then s
    else
      match OpeningLine(s, 0)
      case None => ""
      case Some(line) => Checked(isJSON, Trim(Block(s, line)))
  }

  /** The extraction loop. */
  method ExtractJSON(isJSON: string -> bool, text: string) returns (r: string)
    ensures r == Extract(isJSON, text)
  {
    var s := Trim(text);
    if s == "" {
      return "";
    }
    if isJSON(s) {
      return s;
    }
    var from := 0;
    while true
      invariant from <= |s|
      invariant OpeningLine(s, 0) == OpeningLine(s, from)
      decreases |s| - from
    {
      var end := LineEnd(s, from);
      var line := Trim(s[from..end]);
      OpensByPrefix(line);
      if !HasPrefix(line, TICKS) && (HasPrefix(line, "{") || HasPrefix(line, "[")) {
        r := TryBlock(isJSON, s, line);
        return;
      }
      if end == |s| {
        break;
      }
      from := end + 1;
    }
    r := "";
  }

  /** The body of the loop for the line that decides. */
  method TryBlock(isJSON: string -> bool, s: string, line: string) returns (r: string)
    ensures r == Checked(isJSON, Trim(Block(s, line)))
  {
    var start := IndexOf(s, line);
    if start.None? {
      return "";
    }
    var tail := s[start.value..];
    var end := IndexOf(tail, CLOSING);
    var candidate := Trim(if end.None? then tail else tail[..end.value]);
    if isJSON(candidate) {
      return candidate;
    }
    r := "";
  }

  // --------------------------------------------------- what is extracted

  ghost predicate Substring(s: string, p: string) {
    exists k: nat :: OccursAt(s, p, k)
  }

  lemma SubstringTrans(s: string, p: string, q: string)
    requires Substring(s, p) && Substring(p, q)
    ensures Substring(s, q)
  {
    var k: nat :| OccursAt(s, p, k);
    var m: nat :| OccursAt(p, q, m);
    assert s[k + m..k + m + |q|] == q by {
      forall i | 0 <= i < |q|
        ensures s[k + m + i] == q[i]
      {
        assert p[m..m + |q|][i] == p[m + i];
        assert s[k..k + |p|][m + i] == s[k + m + i];
      }
    }
    assert OccursAt(s, q, k + m);
  }

  lemma TrimSubstring(s: string)
    ensures Substring(s, Trim(s)) && Trimmed(Trim(s))
  {
    var k := TrimIsSubstring(s);
  }

  lemma BlockSubstring(s: string, line: string)
    ensures Substring(s, Block(s, line))
  {
    match IndexOf(s, line)
    case None =>
      assert OccursAt(s, "", 0);
    case Some(start) =>
      var tail := s[start..];
      assert OccursAt(s, tail, start);
      assert OccursAt(tail, Block(s, line), 0);
      SubstringTrans(s, tail, Block(s, line));
  }

  /** Whatever is extracted is empty, or a trimmed, valid part of the answer. */
  lemma ExtractSound(isJSON: string -> bool, text: string)
    ensures
      var r := Extract(isJSON, text);
      r == "" || (isJSON(r) && Trimmed(r) && Substring(text, r))
  {
    var s := Trim(text);
    TrimSubstring(text);
    if s != "" && !isJSON(s) && OpeningLine(s, 0).Some? {
      var block := Block(s, OpeningLine(s, 0).value);
      BlockSubstring(s, OpeningLine(s, 0).value);
      TrimSubstring(block);
      SubstringTrans(text, s, block);
      SubstringTrans(text, block, Trim(block));
    }
  }

  /** Extracting twice changes nothing. */
  lemma ExtractIdempotent(isJSON: string -> bool, text: string)
    ensures Extract(isJSON, Extract(isJSON, text)) == Extract(isJSON, text)
  {
    ExtractSound(isJSON, text);
    TrimmedIsFixed(Extract(isJSON, text));
  }

  // ------------------------------------------- the lexical rules of JSON

  datatype Lexer = Outside | InString | Escape | Stuck

  /** The characters RFC 8259 admits outside strings: structure and space (section 2), literals (3), numbers (6). */
  predicate OutsideChar(c: char) {
    || c in "{}[]:," || c in " \t\n\r" || c in "truefalsn" || '0' <= c <= '9' || c in "+-.eE"
  }

  /** One character of a JSON text; inside strings control characters are refused (RFC 8259, section 7). */
  function Lex(q: Lexer, c: char): Lexer {
    match q
    case Outside => if c == '"' then InString else if OutsideChar(c) then Outside else Stuck
    case InString => if c == '"' then Outside else if c == '\\' then Escape else if c < ' ' then Stuck else InString
    case Escape => if c in "\"\\/bfnrtu" then InString else Stuck
    case Stuck => Stuck
  }

  function LexAll(q: Lexer, s: string): Lexer
    decreases |s|
  {
    if s == "" then q else LexAll(Lex(q, s[0]), s[1..])
  }

  /** The parser accepts only texts that the lexical rules admit. */
  ghost predicate RespectsLexicalRules(isJSON: string -> bool) {
    forall s :: isJSON(s) ==> LexAll(Outside, s) != Stuck
  }

  lemma {:induction false} StuckStays(s: string)
    ensures LexAll(Stuck, s) == Stuck
  {
    if s != "" {
      StuckStays(s[1..]);
    }
  }

  /** No admitted text contains a newline followed by a backtick: a newline is outside strings, a backtick inside. */
  lemma {:induction false} NewlineBacktickSticks(q: Lexer, s: string, k: nat)
    requires k + 1 < |s| && s[k] == '\n' && s[k + 1] == '`'
    ensures LexAll(q, s) == Stuck
    decreases |s|
  {
    var q' := Lex(q, s[0]);
    if k > 0 {
      NewlineBacktickSticks(q', s[1..], k - 1);
    } else {
      assert q' == Outside || q' == Stuck;
      assert s[1..][0] == '`';
      assert Lex(q', '`') == Stuck;
      StuckStays(s[1..][1..]);
    }
  }

  // ------------------------------------------------- the fence round trip

  /** An answer: some text, a fence with a language tag, a document, the closing fence, more text. */
  function Fenced(pre: string, tag: string, doc: string, post: string): string {
    pre + ("```" + tag + "\n" + doc + "\n```") + post
  }

  predicate Plain(c: char) {
    c != '{' && c != '['
  }

  ghost predicate PlainRange(s: string, from: nat, to: nat)
    requires from <= to <= |s|
  {
    forall k :: from <= k < to ==> Plain(s[k])
  }

  lemma TrimLeftTail(s: string)
    requires PlainRange(s, 0, |s|)
    ensures PlainRange(TrimLeft(s), 0, |TrimLeft(s)|)
  {
    TrimLeftIsSuffix(s);
  }

  /** A line without braces never opens a document. */
  lemma PlainLineSkips(s: string, from: nat, end: nat)
    requires from <= end <= |s| && PlainRange(s, from, end)
    ensures !OpensJSON(Trim(s[from..end]))
  {
    var line := s[from..end];
    var k := TrimHead(line);
    assert k < |line| ==> line[k] == s[from + k];
  }

  /** The scan passes over everything before the document. */
  lemma {:induction false} ScanReaches(s: string, from: nat, at: nat)
    requires from <= at <= |s| && PlainRange(s, from, at)
    requires at == from || s[at - 1] == '\n'
    ensures OpeningLine(s, from) == OpeningLine(s, at)
    decreases at - from
  {
    if from < at {
      var end := LineEnd(s, from);
      LineEndIsNewline(s, from);
      PlainLineSkips(s, from, end);
      ScanReaches(s, end + 1, at);
    }
  }

  /** A line that starts with a bracket keeps it when trimmed. */
  lemma TrimOpening(line: string)
    requires line != "" && !Plain(line[0])
    ensures var t := Trim(line); 1 <= |t| <= |line| && t == line[..|t|] && OpensJSON(t)
  {
    assert TrimLeft(line) == line;
    TrimRightIsPrefix(line);
    assert line == line[..1] + line[1..];
    TrimRightConcat(line[..1], line[1..]);
  }

  /** A text that starts with a bracket occurs nowhere in plain text. */
  lemma NotInPlain(s: string, t: string, at: nat, j: nat)
    requires at <= |s| && PlainRange(s, 0, at) && j < at
    requires t != "" && !Plain(t[0])
    ensures !OccursAt(s, t, j)
  {
    if OccursAt(s, t, j) {
      OccursFirst(s, t, j);
    }
  }

  /** The first line of the document opens it, and occurs first where the document starts. */
  lemma FirstLineFound(s: string, at: nat, end: nat)
    requires at < end <= |s| && PlainRange(s, 0, at) && !Plain(s[at])
    ensures OpensJSON(Trim(s[at..end]))
    ensures IndexOf(s, Trim(s[at..end])) == Some(at)
  {
    var line := s[at..end];
    TrimOpening(line);
    var t := Trim(line);
    assert t == s[at..at + |t|];
    assert OccursAt(s, t, at);
    forall j: nat | j < at
      ensures !OccursAt(s, t, j)
    {
      NotInPlain(s, t, at, j);
    }
    IndexOfIsFirst(s, t);
  }

  /** The closing fence is the first newline followed by backticks after the document starts. */
  lemma ClosingFound(doc: string, post: string)
    requires LexAll(Outside, doc) != Stuck
    ensures IndexOf(doc + CLOSING + post, CLOSING) == Some(|doc|)
  {
    var tail := doc + CLOSING + post;
    assert tail[|doc|..|doc| + |CLOSING|] == CLOSING;
    assert OccursAt(tail, CLOSING, |doc|);
    assert tail[|doc|] == '\n';
    IndexOfIsFirst(tail, CLOSING);
    var j := IndexOf(tail, CLOSING).value;
    var here := tail[j..j + |CLOSING|];
    assert tail[j] == here[0] == '\n' && tail[j + 1] == here[1] == '`';
    if j < |doc| {
      assert j + 1 < |doc|;
      assert doc[j] == '\n' && doc[j + 1] == '`';
      NewlineBacktickSticks(Outside, doc, j);
    }
  }

  /** The block cut out at the document's start is the document. */
  lemma BlockIsDoc(s: string, line: string, at: nat, doc: string, post: string)
    requires LexAll(Outside, doc) != Stuck
    requires at <= |s| && s[at..] == doc + CLOSING + post
    requires IndexOf(s, line) == Some(at)
    ensures Block(s, line) == doc
  {
    ClosingFound(doc, post);
    assert (doc + CLOSING + post)[..|doc|] == doc;
  }

  lemma ScanFinds(head: string, doc: string, post: string)
    requires doc != "" && !Plain(doc[0])
    requires PlainRange(head, 0, |head|) && (head == "" || head[|head| - 1] == '\n')
    ensures
      var s := head + doc + CLOSING + post;
      var line := OpeningLine(s, 0);
      line.Some? && IndexOf(s, line.value) == Some(|head|)
  {
    var s := head + doc + CLOSING + post;
    var at := |head|;
    assert PlainRange(s, 0, at);
    ScanReaches(s, 0, at);
    assert s[at] == doc[0];
    FirstLineFound(s, at, LineEnd(s, at));
  }

  /** A closing fence on a line of its own makes a text invalid as JSON. */
  lemma FencedIsNotJSON(isJSON: string -> bool, head: string, post: string)
    requires RespectsLexicalRules(isJSON)
    ensures !isJSON(head + CLOSING + post)
  {
    var s := head + CLOSING + post;
    assert s[|head|] == CLOSING[0] && s[|head| + 1] == CLOSING[1];
    NewlineBacktickSticks(Outside, s, |head|);
  }

  /** Everything up to the document once the answer is trimmed. */
  function Head(pre: string, tag: string): string {
    TrimLeft(pre) + TICKS + tag + "\n"
  }

  lemma HeadIsPlain(pre: string, tag: string)
    requires PlainRange(pre, 0, |pre|) && PlainRange(tag, 0, |tag|)
    ensures PlainRange(Head(pre, tag), 0, |Head(pre, tag)|)
  {
    TrimLeftTail(pre);
  }

  lemma FencedTrimmed(pre: string, tag: string, doc: string, post: string)
    ensures Trim(Fenced(pre, tag, doc, post)) == Head(pre, tag) + doc + CLOSING + TrimRight(post)
  {
    var core := TICKS + tag + "\n" + doc + CLOSING;
    assert core[0] == '`' && core[|core| - 1] == '`';
    TrimAround(pre, core, post);
  }

  lemma DropsHead(head: string, a: string, b: string, c: string)
    ensures (head + a + b + c)[|head|..] == a + b + c
  {
    assert head + a + b + c == head + (a + b + c);
  }

  lemma FencedBlock(s: string, head: string, doc: string, post: string)
    requires s == head + doc + CLOSING + post
    requires doc != "" && !Plain(doc[0]) && LexAll(Outside, doc) != Stuck
    requires PlainRange(head, 0, |head|) && (head == "" || head[|head| - 1] == '\n')
    ensures OpeningLine(s, 0).Some? && Block(s, OpeningLine(s, 0).value) == doc
  {
    ScanFinds(head, doc, post);
    DropsHead(head, doc, CLOSING, post);
    BlockIsDoc(s, OpeningLine(s, 0).value, |head|, doc, post);
  }

  /** A fenced document is recovered whatever plain text comes before the fence and whatever comes after it. */
  lemma FenceRoundTrip(isJSON: string -> bool, pre: string, tag: string, doc: string, post: string)
    requires RespectsLexicalRules(isJSON) && isJSON(doc)
    requires doc != "" && Trimmed(doc) && !Plain(doc[0])
    requires PlainRange(pre, 0, |pre|) && PlainRange(tag, 0, |tag|)
    ensures Extract(isJSON, Fenced(pre, tag, doc, post)) == doc
  {
    FencedTrimmed(pre, tag, doc, post);
    HeadIsPlain(pre, tag);
    var head := Head(pre, tag);
    var s := Trim(Fenced(pre, tag, doc, post));
    FencedIsNotJSON(isJSON, head + doc, TrimRight(post));
    FencedBlock(s, head, doc, TrimRight(post));
    TrimmedIsFixed(doc);
  }

  /** A bare document is recovered too, spaces around it or not. */
  lemma BareRoundTrip(isJSON: string -> bool, pre: string, doc: string, post: string)
    requires isJSON(doc) && doc != "" && Trimmed(doc)
    requires TrimLeft(pre) == "" && TrimRight(post) == ""
    ensures Extract(isJSON, pre + doc + post) == doc
  {
    TrimAround(pre, doc, post);
    assert "" + doc + "" == doc;
  }

  /** An answer whose fence is never closed. */
  function Unclosed(pre: string, tag: string, doc: string, post: string): string {
    pre + ("```" + tag + "\n" + doc) + post
  }

  lemma UnclosedTrimmed(pre: string, tag: string, doc: string, post: string)
    requires doc != "" && Trimmed(doc) && AllSpace(post)
    ensures Trim(Unclosed(pre, tag, doc, post)) == Head(pre, tag) + doc
  {
    var core := "```" + tag + "\n" + doc;
    assert core[0] == '`' && core[|core| - 1] == doc[|doc| - 1];
    TrimAround(pre, core, post);
    TrimRightOfSpace(post);
  }

  /** A valid document contains no closing fence. */
  lemma NothingCloses(doc: string)
    requires LexAll(Outside, doc) != Stuck
    ensures IndexOf(doc, CLOSING).None?
  {
    if IndexOf(doc, CLOSING).Some? {
      IndexOfIsFirst(doc, CLOSING);
      var j := IndexOf(doc, CLOSING).value;
      assert doc[j] == doc[j..j + |CLOSING|][0] && doc[j + 1] == doc[j..j + |CLOSING|][1];
      NewlineBacktickSticks(Outside, doc, j);
    }
  }

  /** Without a closing fence the block runs to the end. */
  lemma UnclosedBlock(head: string, doc: string)
    requires doc != "" && !Plain(doc[0]) && LexAll(Outside, doc) != Stuck
    requires PlainRange(head, 0, |head|) && (head == "" || head[|head| - 1] == '\n')
    ensures OpeningLine(head + doc, 0).Some? && Block(head + doc, OpeningLine(head + doc, 0).value) == doc
  {
    var s := head + doc;
    ScanReaches(s, 0, |head|);
    FirstLineFound(s, |head|, LineEnd(s, |head|));
    assert s[|head|..] == doc;
    NothingCloses(doc);
  }

  /** A document after an opening fence only is recovered too, if the answer as a whole is not valid. */
  lemma UnclosedRoundTrip(isJSON: string -> bool, pre: string, tag: string, doc: string, post: string)
    requires RespectsLexicalRules(isJSON) && isJSON(doc) && !isJSON(Trim(Unclosed(pre, tag, doc, post)))
    requires doc != "" && Trimmed(doc) && !Plain(doc[0]) && AllSpace(post)
    requires PlainRange(pre, 0, |pre|) && PlainRange(tag, 0, |tag|)
    ensures Extract(isJSON, Unclosed(pre, tag, doc, post)) == doc
  {
    UnclosedTrimmed(pre, tag, doc, post);
    HeadIsPlain(pre, tag);
    UnclosedBlock(Head(pre, tag), doc);
    TrimmedIsFixed(doc);
  }

  // ------------------------------------------------ answers with a document

  /** The answer is the document, space around it or not. */
  ghost predicate BareAnswer(text: string, doc: string, pre: string, post: string) {
    text == pre + doc + post && AllSpace(pre) && AllSpace(post)
  }

  /** The document is an object or an array, and nothing before it looks like one. */
  ghost predicate IsFirstBracket(doc: string, pre: string, tag: string) {
    && doc != "" && (doc[0] == '{' || doc[0] == '[')
    && '{' !in pre && '[' !in pre && '{' !in tag && '[' !in tag
  }

  /** The answer has the document in a fence, with any text after it. */
  ghost predicate FencedAnswer(text: string, doc: string, pre: string, tag: string, post: string) {
    IsFirstBracket(doc, pre, tag) && text == Fenced(pre, tag, doc, post)
  }

  /** The answer has the document after a fence that is never closed. */
  ghost predicate UnclosedAnswer(text: string, doc: string, pre: string, tag: string, post: string) {
    IsFirstBracket(doc, pre, tag) && text == Unclosed(pre, tag, doc, post) && AllSpace(post)
  }

  /** The answer holds the valid document in one of these ways. */
  ghost predicate Delivers(isJSON: string -> bool, text: string, doc: string) {
    && isJSON(doc) && doc != "" && Trimmed(doc)
    && (|| (exists pre, post :: BareAnswer(text, doc, pre, post))
        || (exists pre, tag, post :: FencedAnswer(text, doc, pre, tag, post))
        || (!isJSON(Trim(text)) && exists pre, tag, post :: UnclosedAnswer(text, doc, pre, tag, post)))
  }

  /** Whatever document an answer holds is the one that is extracted. */
  lemma DeliveredIsExtracted(isJSON: string -> bool, text: string, doc: string)
    requires RespectsLexicalRules(isJSON) && Delivers(isJSON, text, doc)
    ensures Extract(isJSON, text) == doc
  {
    if pre, post :| BareAnswer(text, doc, pre, post) {
      TrimLeftOfSpace(pre);
      TrimRightOfSpace(post);
      BareRoundTrip(isJSON, pre, doc, post);
    } else if pre, tag, post :| FencedAnswer(text, doc, pre, tag, post) {
      FenceRoundTrip(isJSON, pre, tag, doc, post);
    } else {
      var pre, tag, post :| UnclosedAnswer(text, doc, pre, tag, post);
      UnclosedRoundTrip(isJSON, pre, tag, doc, post);
    }
  }
}
