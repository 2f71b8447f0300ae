/** The load order file: how enabled folders are printed, and how a file is read back. */
module OrderFile {
  import opened Sequences
  import opened Wrappers

  datatype FolderError =
    | EmptyName | CommentMarker | LeadingWhitespace | TrailingWhitespace | PathSeparator | RelativeMarker | HiddenFolder

  predicate Blank(c: char) {
    c == ' ' || c == '\t'
  }

  function ParseFolder(text: string): (r: Result<string, FolderError>)
    ensures r.Ok? ==> r.value == text
  {
    if text == "" then Err(EmptyName)
    else if text[0] == '#' then Err(CommentMarker)
    else if Blank(text[0]) then Err(LeadingWhitespace)
    else if Blank(text[|text| - 1]) then Err(TrailingWhitespace)
    else if '/' in text || '\\' in text then Err(PathSeparator)
    else if text == "." || text == ".." then Err(RelativeMarker)
    else if text[0] == '.' then Err(HiddenFolder)
    else Ok(text)
  }

  predicate IsFolder(text: string) {
    ParseFolder(text).Ok?
  }

  lemma ModIsFolder()
    ensures IsFolder("mod")
  {
  }

  /** A folder name the load order can hold. */
  type Folder = text: string | IsFolder(text) ghost witness (ModIsFolder(); "mod")

  datatype OrderFileError = NotFound | MalformedEntry

  const LINE_ENDING: string := "\r\n"
  // Each in two parts: the verifier does not look into a literal of more than about forty characters.
  const FIRST_COMMENT: string := "# Wargame Red Dragon mod load order" + " - one mod folder per line."
  const SECOND_COMMENT: string := "# Later entries OVERRIDE earlier ones." + " '#' comments, blanks ignored."
  const HEADER: string := FIRST_COMMENT + LINE_ENDING + (SECOND_COMMENT + LINE_ENDING)

  // ---- Printing

  function Lines(folders: seq<Folder>): string {
    if folders == [] then "" else folders[0] + LINE_ENDING + Lines(folders[1..])
  }

  function Printed(folders: seq<Folder>): string {
    HEADER + Lines(folders)
  }

  method Serialize(folders: seq<Folder>) returns (contents: string)
    ensures contents == Printed(folders)
  {
    contents := HEADER;
    for i := 0 to |folders|
      invariant contents + Lines(folders[i..]) == Printed(folders)
    {
      assert folders[i..][0] == folders[i] && folders[i..][1..] == folders[i + 1..];
      assert contents + (folders[i] + LINE_ENDING + Lines(folders[i + 1..])) == contents + folders[i] + LINE_ENDING + Lines(folders[i + 1..]);
      contents := contents + folders[i];
      contents := contents + LINE_ENDING;
    }
    assert contents + "" == contents;
  }

  // ---- Reading

  /** Position of the next line feed, or the length. */
  function LineEnd(text: string): (i: nat)
    ensures i <= |text| && '\n' !in text[..i]
    ensures i < |text| ==> text[i] == '\n'
  {
    if text == "" || text[0] == '\n' then 0
    else
      var rest := LineEnd(text[1..]);
      assert text[..rest + 1] == [text[0]] + text[1..][..rest];
      1 + rest
  }

  function Stripped(line: string): string {
    if line != "" && line[|line| - 1] == '\r' then line[..|line| - 1] else line
  }

  predicate Ignored(line: string) {
    line == "" || line[0] == '#'
  }

  /** The folder a line names, if it names one. */
  function LineFolders(line: string): Result<seq<Folder>, OrderFileError> {
    if Ignored(Stripped(line)) then Ok([])
    else if IsFolder(Stripped(line)) then Ok([Stripped(line)])
    else Err(MalformedEntry)
  }

  function Joined(first: Result<seq<Folder>, OrderFileError>, rest: Result<seq<Folder>, OrderFileError>): Result<seq<Folder>, OrderFileError> {
    if first.Err? then first
    else if rest.Err? then rest
    else Ok(first.value + rest.value)
  }

  function Parsed(text: string): Result<seq<Folder>, OrderFileError>
    decreases |text|
  {
    var end := LineEnd(text);
    if end == |text| then LineFolders(text[..end])
    else Joined(LineFolders(text[..end]), Parsed(text[end + 1..]))
  }

  method Parse(contents: string) returns (r: Result<seq<Folder>, OrderFileError>)
    ensures r == Parsed(contents)
  {
    var entries: seq<Folder> := [];
    var position := 0;
    ghost var rest := contents;
    JoinedNothing(Parsed(contents));
    while true
      invariant position <= |contents| && rest == contents[position..]
      invariant Parsed(contents) == Joined(Ok(entries), Parsed(rest))
      decreases |contents| - position
    {
      var length := LineEnd(contents[position..]);
      var line := Stripped(contents[position..][..length]);
      ParsedStep(entries, rest, length, line);
      if !Ignored(line) {
        if !IsFolder(line) {
          return Err(MalformedEntry);
        }
        entries := entries + [line];
      }
      if position + length == |contents| {
        return Ok(entries);
      }
      DropTwice(contents, position, length + 1);
      rest := contents[position + length + 1..];
      position := position + length + 1;
    }
  }

  lemma DropTwice(text: string, a: nat, b: nat)
    requires a + b <= |text|
    ensures text[a..][b..] == text[a + b..]
  {
  }

  /** The entries with one more line's folder. */
  function Extended(entries: seq<Folder>, line: string): seq<Folder> {
    if !Ignored(line) && IsFolder(line) then entries + [line] else entries
  }

  lemma LineStep(entries: seq<Folder>, raw: string)
    ensures
      var line := Stripped(raw);
      Joined(Ok(entries), LineFolders(raw))
        == if !Ignored(line) && !IsFolder(line) then Err(MalformedEntry) else Ok(Extended(entries, line))
  {
    assert entries + [] == entries;
  }

  lemma ParsedLast(text: string, end: nat)
    requires end == LineEnd(text) == |text|
    ensures Parsed(text) == LineFolders(text[..end])
  {
  }

  lemma ParsedMore(text: string, end: nat)
    requires end == LineEnd(text) < |text|
    ensures Parsed(text) == Joined(LineFolders(text[..end]), Parsed(text[end + 1..]))
  {
  }

  lemma ParsedStep(entries: seq<Folder>, rest: string, end: nat, line: string)
    requires end == LineEnd(rest) && line == Stripped(rest[..end])
    ensures !Ignored(line) && !IsFolder(line) ==> Joined(Ok(entries), Parsed(rest)) == Err(MalformedEntry)
    ensures (Ignored(line) || IsFolder(line)) && end == |rest| ==> Joined(Ok(entries), Parsed(rest)) == Ok(Extended(entries, line))
    ensures (Ignored(line) || IsFolder(line)) && end < |rest| ==>
      Joined(Ok(entries), Parsed(rest)) == Joined(Ok(Extended(entries, line)), Parsed(rest[end + 1..]))
  {
    LineStep(entries, rest[..end]);
    if end == |rest| {
      ParsedLast(rest, end);
    } else {
      ParsedMore(rest, end);
      JoinedTwice(Ok(entries), LineFolders(rest[..end]), Parsed(rest[end + 1..]));
    }
  }

  lemma JoinedNothing(r: Result<seq<Folder>, OrderFileError>)
    ensures Joined(Ok([]), r) == r
  {
    if r.Ok? {
      assert [] + r.value == r.value;
    }
  }

  lemma JoinedTwice(a: Result<seq<Folder>, OrderFileError>, b: Result<seq<Folder>, OrderFileError>, c: Result<seq<Folder>, OrderFileError>)
    ensures Joined(a, Joined(b, c)) == Joined(Joined(a, b), c)
  {
    if a.Ok? && b.Ok? && c.Ok? {
      assert a.value + (b.value + c.value) == a.value + b.value + c.value;
    }
  }

  // ---- Round trip

  predicate NoLineFeed(text: string) {
    '\n' !in text
  }

  predicate AllPlain(folders: seq<Folder>) {
    forall i :: 0 <= i < |folders| ==> NoLineFeed(folders[i])
  }

  lemma {:induction false} LineEndOfLine(line: string, rest: string)
    requires NoLineFeed(line)
    ensures LineEnd(line + "\n" + rest) == |line|
  {
    var text := line + "\n" + rest;
    if line != "" {
      LineEndOfLine(line[1..], rest);
      assert text[1..] == line[1..] + "\n" + rest;
      assert line[0] in line;
    }
  }

  /** One printed line is read back by itself. */
  lemma ParsedLine(line: string, rest: string)
    requires NoLineFeed(line)
    ensures Parsed(line + LINE_ENDING + rest) == Joined(LineFolders(line + "\r"), Parsed(rest))
  {
    var whole := line + "\r";
    assert forall c :: c in whole ==> c in line || c == '\r';
    assert line + LINE_ENDING + rest == whole + "\n" + rest;
    LineEndOfLine(whole, rest);
    var text := whole + "\n" + rest;
    assert text[..|whole|] == whole && text[|whole| + 1..] == rest;
  }

  lemma {:induction false} LinesReadBack(folders: seq<Folder>)
    requires AllPlain(folders)
    ensures Parsed(Lines(folders)) == Ok(folders)
  {
    if folders == [] {
      assert LineEnd("") == 0;
    } else {
      LinesReadBack(folders[1..]);
      ParsedLine(folders[0], Lines(folders[1..]));
      assert Stripped(folders[0] + "\r") == folders[0];
      assert [folders[0]] + folders[1..] == folders;
    }
  }

  lemma CommentLine(line: string, rest: string)
    requires NoLineFeed(line) && line != "" && line[0] == '#'
    ensures Parsed(line + LINE_ENDING + rest) == Parsed(rest)
  {
    ParsedLine(line, rest);
    assert Stripped(line + "\r") == line;
    JoinedNothing(Parsed(rest));
  }

  lemma FirstCommentPlain()
    ensures NoLineFeed(FIRST_COMMENT) && FIRST_COMMENT != "" && FIRST_COMMENT[0] == '#'
  {
  }

  lemma SecondCommentPlain()
    ensures NoLineFeed(SECOND_COMMENT) && SECOND_COMMENT != "" && SECOND_COMMENT[0] == '#'
  {
  }

  lemma TwoComments(first: string, second: string, rest: string)
    requires NoLineFeed(first) && first != "" && first[0] == '#'
    requires NoLineFeed(second) && second != "" && second[0] == '#'
    ensures Parsed(first + LINE_ENDING + (second + LINE_ENDING) + rest) == Parsed(rest)
  {
    CommentLine(second, rest);
    CommentLine(first, second + LINE_ENDING + rest);
    Regroup(first + LINE_ENDING, second + LINE_ENDING, rest);
  }

  lemma HeaderIgnored(rest: string)
    ensures Parsed(HEADER + rest) == Parsed(rest)
  {
    FirstCommentPlain();
    SecondCommentPlain();
    TwoComments(FIRST_COMMENT, SECOND_COMMENT, rest);
  }

  lemma LineIsPlain(line: string)
    requires NoLineFeed(line) && LineFolders(line).Ok?
    ensures AllPlain(LineFolders(line).value)
  {
    assert forall c :: c in Stripped(line) ==> c in line;
  }

  lemma JoinedPlain(a: Result<seq<Folder>, OrderFileError>, b: Result<seq<Folder>, OrderFileError>)
    requires Joined(a, b).Ok? && AllPlain(a.value) && AllPlain(b.value)
    ensures AllPlain(Joined(a, b).value)
  {
  }

  /** Whatever a file holds, no name read from it has a line feed. */
  lemma {:induction false} ParsedIsPlain(text: string)
    requires Parsed(text).Ok?
    ensures AllPlain(Parsed(text).value)
    decreases |text|
  {
    var end := LineEnd(text);
    if end == |text| {
      ParsedLast(text, end);
      LineIsPlain(text[..end]);
    } else {
      ParsedMore(text, end);
      LineIsPlain(text[..end]);
      ParsedIsPlain(text[end + 1..]);
      JoinedPlain(LineFolders(text[..end]), Parsed(text[end + 1..]));
    }
  }

  /** A printed order is read back exactly when no name has a line feed. */
  lemma OrderRoundTrip(folders: seq<Folder>)
    ensures Parsed(Printed(folders)) == Ok(folders) <==> AllPlain(folders)
  {
    HeaderIgnored(Lines(folders));
    if AllPlain(folders) {
      LinesReadBack(folders);
    }
    if Parsed(Printed(folders)) == Ok(folders) {
      ParsedIsPlain(Printed(folders));
    }
  }

  /** An accepted file, rewritten, means the same. */
  lemma RewritingKeepsMeaning(text: string)
    requires Parsed(text).Ok?
    ensures Parsed(Printed(Parsed(text).value)) == Parsed(text)
  {
    ParsedIsPlain(text);
    OrderRoundTrip(Parsed(text).value);
  }

  lemma LineOf(line: Folder, rest: string)
    requires NoLineFeed(line) && line[|line| - 1] != '\r'
    ensures Parsed(line + "\n" + rest) == Joined(Ok([line]), Parsed(rest))
  {
    LineEndOfLine(line, rest);
    var text := line + "\n" + rest;
    assert text[..|line|] == line && text[|line| + 1..] == rest;
    ParsedMore(text, |line|);
  }

  lemma OneLine(folder: Folder)
    ensures Lines([folder]) == folder + LINE_ENDING
  {
    assert [folder][1..] == [];
    assert folder + LINE_ENDING + "" == folder + LINE_ENDING;
  }

  lemma TwoLines(first: string, second: string)
    ensures first + "\n" + second + LINE_ENDING == first + "\n" + (second + LINE_ENDING)
  {
  }

  /** A folder named with a line feed between two good names comes back as two folders. */
  lemma LineFeedSplitsFolder(first: Folder, second: Folder, both: Folder)
    requires NoLineFeed(first) && NoLineFeed(second) && first[|first| - 1] != '\r' && both == first + "\n" + second
    ensures Parsed(Printed([both])) == Ok([first, second])
  {
    HeaderIgnored(Lines([both]));
    OneLine(both);
    OneLine(second);
    TwoLines(first, second);
    LineOf(first, Lines([second]));
    LinesReadBack([second]);
    assert [first] + [second] == [first, second];
  }

  /** For example. */
  lemma LineFeedExample()
    ensures IsFolder("a") && IsFolder("b") && IsFolder("a\nb")
    ensures Parsed(Printed(["a\nb"])) == Ok(["a", "b"])
  {
    assert IsFolder("a") && IsFolder("b") && IsFolder("a\nb");
    LineFeedSplitsFolder("a", "b", "a\nb");
  }
}
