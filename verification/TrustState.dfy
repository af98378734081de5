/**
 * Trust entries in the Codex configuration text: sections of given headers are taken
 * out line by line, and fresh ones are put at the end.
 */
module TrustState {
  import opened Prelude
  import opened Texts

  /** A fresh section: its header line and its hash line. */
  datatype Section = Section(header: string, hashLine: string)

  /** A section header: something in brackets on one line. */
  predicate IsHeader(trimmed: string) {
    && |trimmed| >= 3 && trimmed[0] == '[' && trimmed[|trimmed| - 1] == ']'
    && forall k | 1 <= k < |trimmed| - 1 :: trimmed[k] !in {'\n', '\r', '\U{2028}', '\U{2029}'}
  }

  /** A header is a bracketed text that is not empty and has no line end. */
  lemma {:induction false} HeaderExact(name: string, line: string)
    ensures IsHeader("[" + name + "]") <==>
      name != "" && '\n' !in name && '\r' !in name && '\U{2028}' !in name && '\U{2029}' !in name
    ensures IsHeader(line) ==> line == "[" + line[1..|line| - 1] + "]"
  {
    var header := "[" + name + "]";
    assert forall k | 1 <= k < |header| - 1 :: header[k] == name[k - 1];
    forall k | 0 <= k < |name| ensures name[k] == header[k + 1] {
    }
  }

  // ---------------------------------------------------------------------
  // Which lines stay.

  /** The header of the section that the first `n` lines end in. */
  function HeaderAt(lines: seq<string>, n: nat): Option<string>
    requires n <= |lines|
  {
    if n == 0 then None
    else if IsHeader(Trim(lines[n - 1])) then Some(Trim(lines[n - 1]))
    else HeaderAt(lines, n - 1)
  }

  predicate Removes(headers: set<string>, header: Option<string>) {
    header.Some? && header.value in headers
  }

  /** The lines that lie outside the removed sections, in order. */
  function KeptUpTo(headers: set<string>, lines: seq<string>, n: nat): seq<string>
    requires n <= |lines|
  {
    if n == 0 then []
    else if Removes(headers, HeaderAt(lines, n)) then KeptUpTo(headers, lines, n - 1)
    else KeptUpTo(headers, lines, n - 1) + [lines[n - 1]]
  }

  function KeptLines(headers: set<string>, lines: seq<string>): seq<string> {
    KeptUpTo(headers, lines, |lines|)
  }

  function WithoutBlanks(lines: seq<string>): seq<string> {
    if lines != [] && lines[|lines| - 1] == "" then WithoutBlanks(lines[..|lines| - 1]) else lines
  }

  function SectionLines(add: seq<Section>): seq<string> {
    if add == [] then [] else SectionLines(add[..|add| - 1]) + ["", add[|add| - 1].header, add[|add| - 1].hashLine]
  }

  /** Every line with its line end. */
  function Ended(lines: seq<string>): string {
    if lines == [] then "" else Ended(lines[..|lines| - 1]) + lines[|lines| - 1] + "\n"
  }

  function Content(lines: seq<string>): string {
    if lines == [] then "\n" else Ended(lines)
  }

  function Rewritten(content: string, headers: set<string>, add: seq<Section>): string {
    Content(WithoutBlanks(KeptLines(headers, Lines(content))) + SectionLines(add))
  }

  method JoinLines(lines: seq<string>) returns (content: string)
    ensures content == Content(lines)
  {
    if |lines| == 0 {
      return "\n";
    }
    content := lines[0];
    assert lines[..1] == [lines[0]] && [lines[0]][..0] == [];
    for k := 1 to |lines|
      invariant content + "\n" == Ended(lines[..k])
    {
      assert lines[..k + 1][..k] == lines[..k];
      assert content + "\n" + lines[k] + "\n" == Ended(lines[..k]) + lines[k] + "\n";
      content := content + "\n" + lines[k];
    }
    assert lines[..|lines|] == lines;
    content := content + "\n";
  }

  /** Takes the sections of the given headers out and puts the new ones at the end. */
  method RewriteTrustState(content: string, headers: set<string>, add: seq<Section>) returns (result: string)
    ensures result == Rewritten(content, headers, add)
  {
    var kept := KeepLines(headers, Lines(content));
    kept := DropBlanks(kept);
    kept := AppendSections(kept, add);
    result := JoinLines(kept);
  }

  method KeepLines(headers: set<string>, lines: seq<string>) returns (kept: seq<string>)
    ensures kept == KeptLines(headers, lines)
  {
    kept := [];
    var skipping := false;
    for k := 0 to |lines|
      invariant kept == KeptUpTo(headers, lines, k)
      invariant skipping == Removes(headers, HeaderAt(lines, k))
    {
      var trimmed := Trim(lines[k]);
      if IsHeader(trimmed) {
        skipping := trimmed in headers;
      }
      if !skipping {
        kept := kept + [lines[k]];
      }
    }
  }

  method DropBlanks(lines: seq<string>) returns (kept: seq<string>)
    ensures kept == WithoutBlanks(lines)
  {
    kept := lines;
    while |kept| > 0 && kept[|kept| - 1] == ""
      invariant WithoutBlanks(lines) == WithoutBlanks(kept)
    {
      kept := kept[..|kept| - 1];
    }
  }

  method AppendSections(front: seq<string>, add: seq<Section>) returns (kept: seq<string>)
    ensures kept == front + SectionLines(add)
  {
    kept := front;
    assert front + SectionLines(add[..0]) == front;
    for k := 0 to |add|
      invariant kept == front + SectionLines(add[..k])
    {
      assert add[..k + 1][..k] == add[..k];
      kept := kept + ["", add[k].header, add[k].hashLine];
    }
    assert add[..|add|] == add;
  }

  // ---------------------------------------------------------------------
  // Lines and their text.

  predicate NoLineEnd(line: string) {
    '\n' !in line
  }

  lemma {:induction false} LinesNoLineEnd(s: string)
    ensures forall line | line in Lines(s) :: NoLineEnd(line)
    decreases |s|
  {
    var end := IndexOf(s, '\n', 0);
    if end < |s| {
      LinesNoLineEnd(s[end + 1..]);
      assert forall line | line in Lines(s) :: line == WithoutReturn(s[..end]) || line in Lines(s[end + 1..]);
      assert NoLineEnd(s[..end]);
    }
  }

  function Unreturned(lines: seq<string>): (r: seq<string>)
    ensures |r| == |lines| && forall k | 0 <= k < |r| :: r[k] == WithoutReturn(lines[k])
  {
    seq(|lines|, k requires 0 <= k < |lines| => WithoutReturn(lines[k]))
  }

  /** Reading text that was written line by line. */
  lemma {:induction false} LinesOfEnded(first: string, rest: string)
    requires NoLineEnd(first)
    ensures Lines(first + "\n" + rest) == [WithoutReturn(first)] + Lines(rest)
  {
    var s := first + "\n" + rest;
    assert s[|first|] == '\n' && forall k | 0 <= k < |first| :: s[k] == first[k] && first[k] in first;
    FirstIndex(s, '\n', |first|);
    assert s[..|first|] == first && s[|first| + 1..] == rest;
  }

  lemma {:induction false} EndedCons(line: string, lines: seq<string>)
    ensures Ended([line] + lines) == line + "\n" + Ended(lines)
  {
    if lines == [] {
      assert [line] + lines == [line] && [line][..0] == [];
    } else {
      var front, last := lines[..|lines| - 1], lines[|lines| - 1];
      assert ([line] + lines)[..|lines|] == [line] + front;
      EndedCons(line, front);
    }
  }

  lemma {:induction false} LinesOfContent(lines: seq<string>)
    requires forall line | line in lines :: NoLineEnd(line)
    ensures Lines(Ended(lines)) == Unreturned(lines) + [""]
  {
    if lines == [] {
      assert Lines("") == [""];
    } else {
      LinesOfContent(lines[1..]);
      LinesOfFirst(lines[0], lines[1..]);
      assert lines == [lines[0]] + lines[1..];
      UnreturnedFirst(lines);
      Regroup([WithoutReturn(lines[0])], Unreturned(lines[1..]), [""]);
    }
  }

  lemma {:induction false} UnreturnedFirst(lines: seq<string>)
    requires lines != []
    ensures Unreturned(lines) == [WithoutReturn(lines[0])] + Unreturned(lines[1..])
  {
  }

  lemma {:induction false} LinesOfFirst(first: string, lines: seq<string>)
    requires NoLineEnd(first)
    ensures Lines(Ended([first] + lines)) == [WithoutReturn(first)] + Lines(Ended(lines))
  {
    EndedCons(first, lines);
    LinesOfEnded(first, Ended(lines));
  }

  // ---------------------------------------------------------------------
  // Rewriting twice.

  /** No line lies in a removed section. */
  ghost predicate NoneRemoved(headers: set<string>, lines: seq<string>) {
    forall n: nat | n <= |lines| :: !Removes(headers, HeaderAt(lines, n))
  }

  lemma {:induction false} HeaderAtPrefix(lines: seq<string>, more: seq<string>, n: nat)
    requires n <= |lines|
    ensures HeaderAt(lines + more, n) == HeaderAt(lines, n)
  {
    if n > 0 {
      HeaderAtPrefix(lines, more, n - 1);
    }
  }

  lemma {:induction false} KeptPrefix(headers: set<string>, lines: seq<string>, more: seq<string>, n: nat)
    requires n <= |lines|
    ensures KeptUpTo(headers, lines + more, n) == KeptUpTo(headers, lines, n)
  {
    if n > 0 {
      KeptPrefix(headers, lines, more, n - 1);
      HeaderAtPrefix(lines, more, n);
    }
  }

  lemma {:induction false} NoneRemovedSnoc(headers: set<string>, lines: seq<string>, line: string)
    requires NoneRemoved(headers, lines) && !Removes(headers, HeaderAt(lines + [line], |lines| + 1))
    ensures NoneRemoved(headers, lines + [line])
  {
    forall n: nat | n <= |lines| + 1 ensures !Removes(headers, HeaderAt(lines + [line], n)) {
      if n <= |lines| {
        HeaderAtPrefix(lines, [line], n);
      }
    }
  }

  /** The kept lines lie in no removed section of their own either. */
  lemma {:induction false} KeptNoneRemoved(headers: set<string>, lines: seq<string>, n: nat)
    requires n <= |lines|
    ensures var kept := KeptUpTo(headers, lines, n);
      && NoneRemoved(headers, kept)
      && (!Removes(headers, HeaderAt(lines, n)) ==> HeaderAt(kept, |kept|) == HeaderAt(lines, n))
  {
    if n > 0 {
      KeptNoneRemoved(headers, lines, n - 1);
      var before, line := KeptUpTo(headers, lines, n - 1), lines[n - 1];
      if !Removes(headers, HeaderAt(lines, n)) {
        HeaderAtPrefix(before, [line], |before|);
        assert HeaderAt(before + [line], |before| + 1) == HeaderAt(lines, n);
        NoneRemovedSnoc(headers, before, line);
      }
    }
  }

  lemma {:induction false} KeepsAll(headers: set<string>, lines: seq<string>, n: nat)
    requires NoneRemoved(headers, lines) && n <= |lines|
    ensures KeptUpTo(headers, lines, n) == lines[..n]
  {
    if n > 0 {
      KeepsAll(headers, lines, n - 1);
    }
  }

  lemma {:induction false} TrimStartReturn(s: string)
    ensures TrimStart(s + "\r") == if TrimStart(s) == "" then "" else TrimStart(s) + "\r"
  {
    if s == "" {
      assert "\r"[1..] == "" && s + "\r" == "\r";
    } else if IsSpace(s[0]) {
      assert (s + "\r")[1..] == s[1..] + "\r";
      TrimStartReturn(s[1..]);
    }
  }

  lemma {:induction false} TrimReturn(line: string)
    ensures Trim(WithoutReturn(line)) == Trim(line)
  {
    if line != "" && line[|line| - 1] == '\r' {
      var s := line[..|line| - 1];
      assert line == s + "\r";
      TrimStartReturn(s);
      var t := TrimStart(s);
      assert (t + "\r")[..|t|] == t;
    }
  }

  predicate SameHeader(lines: seq<string>, others: seq<string>, n: nat)
    requires n <= |lines| == |others|
  {
    HeaderAt(others, n) == HeaderAt(lines, n)
  }

  lemma {:induction false} HeaderAtUnreturned(lines: seq<string>, n: nat)
    requires n <= |lines|
    ensures SameHeader(lines, Unreturned(lines), n)
  {
    if n > 0 {
      HeaderAtUnreturned(lines, n - 1);
      HeaderNextUnreturned(lines, Unreturned(lines), n);
    }
  }

  lemma {:induction false} HeaderNextUnreturned(lines: seq<string>, others: seq<string>, n: nat)
    requires 0 < n <= |lines| == |others| && SameHeader(lines, others, n - 1)
    requires others[n - 1] == WithoutReturn(lines[n - 1])
    ensures SameHeader(lines, others, n)
  {
    TrimReturn(lines[n - 1]);
  }

  lemma {:induction false} BlanksPrefix(lines: seq<string>)
    ensures var r := WithoutBlanks(lines);
      && r <= lines && (r != [] ==> r[|r| - 1] != "")
      && forall k | |r| <= k < |lines| :: lines[k] == ""
  {
    if lines != [] && lines[|lines| - 1] == "" {
      BlanksPrefix(lines[..|lines| - 1]);
    }
  }

  lemma {:induction false} BlanksNone(lines: seq<string>)
    requires lines != [] ==> lines[|lines| - 1] != ""
    ensures WithoutBlanks(lines) == lines && WithoutBlanks(lines + [""]) == lines
  {
    assert (lines + [""])[..|lines|] == lines;
  }

  lemma {:induction false} NoneRemovedPrefix(headers: set<string>, lines: seq<string>, r: seq<string>)
    requires NoneRemoved(headers, lines) && r <= lines
    ensures NoneRemoved(headers, r)
  {
    assert lines == r + lines[|r|..];
    forall n: nat | n <= |r| ensures !Removes(headers, HeaderAt(r, n)) {
      HeaderAtPrefix(r, lines[|r|..], n);
    }
  }

  /** Fresh sections: their headers are headers, are removed by the next rewriting, and end no line. */
  ghost predicate Fresh(headers: set<string>, add: seq<Section>) {
    forall s | s in add ::
      && IsHeader(s.header) && Trim(s.header) == s.header && s.header in headers && NoLineEnd(s.header)
      && !IsHeader(Trim(s.hashLine)) && NoLineEnd(s.hashLine) && WithoutReturn(s.hashLine) == s.hashLine
  }

  lemma {:induction false} KeptSnoc(headers: set<string>, lines: seq<string>, line: string)
    ensures HeaderAt(lines + [line], |lines| + 1) ==
      if IsHeader(Trim(line)) then Some(Trim(line)) else HeaderAt(lines, |lines|)
    ensures KeptLines(headers, lines + [line]) ==
      if Removes(headers, HeaderAt(lines + [line], |lines| + 1)) then KeptLines(headers, lines)
      else KeptLines(headers, lines) + [line]
  {
    HeaderAtPrefix(lines, [line], |lines|);
    KeptPrefix(headers, lines, [line], |lines|);
  }

  /** A section of a removed header goes away; only a blank line before the first one may stay. */
  lemma {:induction false} KeptSection(headers: set<string>, lines: seq<string>, s: Section)
    requires Fresh(headers, [s])
    ensures var more := lines + ["", s.header, s.hashLine];
      && Removes(headers, HeaderAt(more, |more|))
      && KeptLines(headers, more) == if Removes(headers, HeaderAt(lines, |lines|)) then KeptLines(headers, lines)
        else KeptLines(headers, lines) + [""]
  {
    assert s in [s];
    KeptBlank(headers, lines);
    KeptHeader(headers, lines + [""], s);
    assert lines + ["", s.header, s.hashLine] == lines + [""] + [s.header] + [s.hashLine];
  }

  lemma {:induction false} KeptHeader(headers: set<string>, lines: seq<string>, s: Section)
    requires Fresh(headers, [s])
    ensures var more := lines + [s.header] + [s.hashLine];
      Removes(headers, HeaderAt(more, |more|)) && KeptLines(headers, more) == KeptLines(headers, lines)
  {
    assert s in [s];
    KeptSnoc(headers, lines, s.header);
    KeptSnoc(headers, lines + [s.header], s.hashLine);
  }

  lemma {:induction false} KeptBlank(headers: set<string>, lines: seq<string>)
    ensures HeaderAt(lines + [""], |lines| + 1) == HeaderAt(lines, |lines|)
    ensures KeptLines(headers, lines + [""])
      == if Removes(headers, HeaderAt(lines, |lines|)) then KeptLines(headers, lines)
        else KeptLines(headers, lines) + [""]
  {
    KeptSnoc(headers, lines, "");
  }

  /** Where the next section goes. */
  ghost predicate SectionsGone(headers: set<string>, lines: seq<string>, more: seq<string>, none: bool) {
    && KeptLines(headers, more) == (if none then lines else lines + [""])
    && Removes(headers, HeaderAt(more, |more|)) == !none
  }

  lemma {:induction false} OneMoreGone(headers: set<string>, lines: seq<string>, more: seq<string>, none: bool,
      s: Section)
    requires SectionsGone(headers, lines, more, none) && Fresh(headers, [s])
    ensures SectionsGone(headers, lines, more + ["", s.header, s.hashLine], false)
  {
    KeptSection(headers, more, s);
  }

  lemma {:induction false} KeptSections(headers: set<string>, lines: seq<string>, add: seq<Section>)
    requires NoneRemoved(headers, lines) && Fresh(headers, add)
    ensures SectionsGone(headers, lines, lines + SectionLines(add), add == [])
  {
    if add == [] {
      assert lines + SectionLines(add) == lines;
      KeepsAll(headers, lines, |lines|);
    } else {
      var front, last := add[..|add| - 1], add[|add| - 1];
      KeptSections(headers, lines, front);
      assert last in add;
      OneMoreGone(headers, lines, lines + SectionLines(front), front == [], last);
      Regroup(lines, SectionLines(front), ["", last.header, last.hashLine]);
    }
  }

  lemma {:induction false} KeptAgain(headers: set<string>, lines: seq<string>, add: seq<Section>)
    requires NoneRemoved(headers, lines) && Fresh(headers, add)
    ensures KeptLines(headers, lines + SectionLines(add) + [""]) == lines + [""]
  {
    KeptSections(headers, lines, add);
    KeptSnoc(headers, lines + SectionLines(add), "");
  }

  /** What a rewriting leaves of a text before the fresh sections. */
  function Body(content: string, headers: set<string>): seq<string> {
    WithoutBlanks(KeptLines(headers, Lines(content)))
  }

  lemma {:induction false} SectionLinesPlain(headers: set<string>, add: seq<Section>)
    requires Fresh(headers, add)
    ensures Unreturned(SectionLines(add)) == SectionLines(add)
      && forall line | line in SectionLines(add) :: NoLineEnd(line)
  {
    if add != [] {
      var front, last := add[..|add| - 1], add[|add| - 1];
      assert last in add;
      SectionLinesPlain(headers, front);
      HeaderPlain(last.header);
      assert Unreturned(SectionLines(add)) == Unreturned(SectionLines(front)) + ["", last.header, last.hashLine];
    }
  }

  lemma {:induction false} HeaderPlain(header: string)
    requires IsHeader(header)
    ensures WithoutReturn(header) == header
  {
  }

  lemma {:induction false} KeptFrom(headers: set<string>, lines: seq<string>, n: nat)
    requires n <= |lines|
    ensures forall line | line in KeptUpTo(headers, lines, n) :: line in lines
  {
    if n > 0 {
      KeptFrom(headers, lines, n - 1);
    }
  }

  lemma {:induction false} BodyPlain(content: string, headers: set<string>)
    ensures NoneRemoved(headers, Body(content, headers))
    ensures forall line | line in Body(content, headers) :: NoLineEnd(line)
  {
    var lines := Lines(content);
    var kept := KeptLines(headers, lines);
    KeptNoneRemoved(headers, lines, |lines|);
    BlanksPrefix(kept);
    NoneRemovedPrefix(headers, kept, Body(content, headers));
    LinesNoLineEnd(content);
    KeptFrom(headers, lines, |lines|);
  }

  lemma {:induction false} UnreturnedAppend(a: seq<string>, b: seq<string>)
    ensures Unreturned(a + b) == Unreturned(a) + Unreturned(b)
  {
  }

  /** The lines of a rewritten text. */
  lemma {:induction false} LinesOfRewritten(content: string, headers: set<string>, add: seq<Section>)
    requires Fresh(headers, add)
    ensures var body := Body(content, headers);
      Lines(Rewritten(content, headers, add))
        == if body + SectionLines(add) == [] then ["", ""] else Unreturned(body) + SectionLines(add) + [""]
  {
    var body := Body(content, headers);
    BodyPlain(content, headers);
    SectionLinesPlain(headers, add);
    UnreturnedAppend(body, SectionLines(add));
    if body + SectionLines(add) == [] {
      LinesOfEnded("", "");
      assert "" + "\n" + "" == "\n";
    } else {
      LinesOfContent(body + SectionLines(add));
    }
  }

  lemma {:induction false} BlankBody(headers: set<string>)
    ensures WithoutBlanks(KeptLines(headers, ["", ""])) == []
  {
    var none: seq<string> := [];
    KeptSnoc(headers, none, "");
    KeptSnoc(headers, none + [""], "");
    assert none + [""] + [""] == ["", ""];
  }

  lemma {:induction false} FreshMore(headers: set<string>, again: set<string>, add: seq<Section>)
    requires again <= headers && Fresh(again, add)
    ensures Fresh(headers, add)
  {
  }

  lemma {:induction false} UnreturnedStays(headers: set<string>, again: set<string>, body: seq<string>)
    requires again <= headers && NoneRemoved(headers, body)
    ensures NoneRemoved(again, Unreturned(body))
  {
    forall n: nat | n <= |body| ensures !Removes(again, HeaderAt(Unreturned(body), n)) {
      HeaderAtUnreturned(body, n);
      assert !Removes(headers, HeaderAt(body, n));
    }
  }

  /**
   * A second rewriting that removes no other sections only takes a return character off
   * each line that still ends with one, and blank lines off the end.
   */
  lemma {:induction false} BodyAgain(content: string, headers: set<string>, again: set<string>, add: seq<Section>)
    requires again <= headers && Fresh(again, add)
    ensures Body(Rewritten(content, headers, add), again) == WithoutBlanks(Unreturned(Body(content, headers)))
  {
    var body := Body(content, headers);
    FreshMore(headers, again, add);
    BodyPlain(content, headers);
    LinesOfRewritten(content, headers, add);
    UnreturnedStays(headers, again, body);
    if body + SectionLines(add) == [] {
      BlankBody(again);
    } else {
      KeptAgain(again, Unreturned(body), add);
    }
  }

  lemma {:induction false} EndedAppend(a: seq<string>, b: seq<string>)
    ensures Ended(a + b) == Ended(a) + Ended(b)
  {
    if b == [] {
      assert a + b == a;
    } else {
      assert (a + b)[..|a + b| - 1] == a + b[..|b| - 1];
      EndedAppend(a, b[..|b| - 1]);
    }
  }

  lemma {:induction false} UnreturnedShorter(lines: seq<string>)
    ensures |Ended(Unreturned(lines))| <= |Ended(lines)|
    ensures Unreturned(lines) != lines ==> |Ended(Unreturned(lines))| < |Ended(lines)|
  {
    if lines != [] {
      var front, last := lines[..|lines| - 1], lines[|lines| - 1];
      assert Unreturned(lines)[..|lines| - 1] == Unreturned(front);
      UnreturnedShorter(front);
      assert Unreturned(lines) == Unreturned(front) + [WithoutReturn(last)];
    }
  }

  lemma {:induction false} BlanksShorter(lines: seq<string>)
    ensures |Ended(WithoutBlanks(lines))| <= |Ended(lines)|
  {
    if lines != [] && lines[|lines| - 1] == "" {
      BlanksShorter(lines[..|lines| - 1]);
    }
  }

  /**
   * Rewriting twice is rewriting once, exactly when no line that stays ends with a return
   * character. The second rewriting removes the sections it adds, and may remove any of
   * those that the first one removed.
   */
  lemma {:induction false} RewriteTwice(content: string, headers: set<string>, again: set<string>, add: seq<Section>)
    requires again <= headers && Fresh(again, add)
    ensures Rewritten(Rewritten(content, headers, add), again, add) == Rewritten(content, headers, add)
      <==> Unreturned(Body(content, headers)) == Body(content, headers)
  {
    var body := Body(content, headers);
    BodyAgain(content, headers, again, add);
    BlanksPrefix(KeptLines(headers, Lines(content)));
    if Unreturned(body) == body {
      BlanksNone(body);
    } else {
      var left := WithoutBlanks(Unreturned(body));
      UnreturnedShorter(body);
      BlanksShorter(Unreturned(body));
      EndedAppend(body, SectionLines(add));
      EndedAppend(left, SectionLines(add));
    }
  }

  lemma {:induction false} ReturnOff()
    ensures WithoutReturn("a\r\r") == "a\r" && WithoutReturn("a\r") == "a"
  {
    assert "a\r\r"[..2] == "a\r" && "a\r"[..1] == "a";
  }

  lemma {:induction false} StrayReturnPlain()
    ensures !IsHeader(Trim("a\r"))
  {
    ReturnOff();
    TrimReturn("a\r");
    assert Trim("a") == "a";
  }

  lemma {:induction false} StrayReturnLines()
    ensures Lines("a\r\r\n") == ["a\r"] + [""]
  {
    LinesOfEnded("a\r\r", "");
    assert "a\r\r" + "\n" + "" == "a\r\r\n";
    ReturnOff();
    assert Lines("") == [""];
  }

  lemma {:induction false} StrayReturnBody(headers: set<string>)
    ensures Body("a\r\r\n", headers) == ["a\r"]
  {
    var none: seq<string> := [];
    StrayReturnLines();
    StrayReturnPlain();
    KeptSnoc(headers, none, "a\r");
    assert none + ["a\r"] == ["a\r"];
    KeptSnoc(headers, ["a\r"], "");
    BlanksNone(["a\r"]);
  }

  /** Such a text: a line with two return characters keeps one, and loses it the next time. */
  lemma {:induction false} StrayReturnIsLost(headers: set<string>, add: seq<Section>)
    requires Fresh(headers, add)
    ensures var once := Rewritten("a\r\r\n", headers, add); Rewritten(once, headers, add) != once
  {
    StrayReturnBody(headers);
    RewriteTwice("a\r\r\n", headers, headers, add);
    ReturnOff();
    assert Unreturned(["a\r"])[0] == "a";
  }

  // ---------------------------------------------------------------------
  // Trust.

  /** What the status check looks for in the text: every current section, and at least one. */
  ghost predicate Trusted(content: string, current: seq<Section>) {
    current != [] && forall s | s in current :: Contains(content, s.header) && Contains(content, s.hashLine)
  }

  lemma {:induction false} EndedContains(lines: seq<string>, k: nat)
    requires k < |lines|
    ensures Contains(Ended(lines), lines[k])
  {
    assert lines == lines[..k] + ([lines[k]] + lines[k + 1..]);
    EndedAppend(lines[..k], [lines[k]] + lines[k + 1..]);
    EndedCons(lines[k], lines[k + 1..]);
    ContainsPart(Ended(lines[..k]), lines[k], "\n" + Ended(lines[k + 1..]));
    assert Ended(lines[..k]) + lines[k] + ("\n" + Ended(lines[k + 1..])) == Ended(lines);
  }

  lemma {:induction false} SectionAmong(add: seq<Section>, s: Section)
    requires s in add
    ensures s.header in SectionLines(add) && s.hashLine in SectionLines(add)
  {
    var last := add[|add| - 1];
    var tail := ["", last.header, last.hashLine];
    assert SectionLines(add)[|SectionLines(add)| - 2] == last.header
      && SectionLines(add)[|SectionLines(add)| - 1] == last.hashLine;
    if s != last {
      SectionAmong(add[..|add| - 1], s);
    }
  }

  /** A rewriting that adds a section for every current handler leaves the handlers trusted. */
  lemma {:induction false} RewriteTrusts(content: string, headers: set<string>, add: seq<Section>)
    requires add != []
    ensures Trusted(Rewritten(content, headers, add), add)
  {
    var lines := Body(content, headers) + SectionLines(add);
    forall s | s in add
      ensures Contains(Rewritten(content, headers, add), s.header)
        && Contains(Rewritten(content, headers, add), s.hashLine)
    {
      SectionAmong(add, s);
      assert s.header in lines && s.hashLine in lines;
      var i :| 0 <= i < |lines| && lines[i] == s.header;
      EndedContains(lines, i);
      var j :| 0 <= j < |lines| && lines[j] == s.hashLine;
      EndedContains(lines, j);
    }
  }
}
