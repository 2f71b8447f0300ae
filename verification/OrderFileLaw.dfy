/** Which folder names and which order files are accepted, told from their characters and lines. */
module OrderFileLaw {
  import opened Wrappers
  import opened OrderFile

  // ---- Folder names

  /** A character no folder name may begin with: a comment marker, a blank or a dot. */
  predicate BadStart(c: char) {
    c as int == 35 || c as int == 32 || c as int == 9 || c as int == 46
  }

  predicate GoodFolder(text: string) {
    && 0 < |text|
    && !BadStart(text[0])
    && text[|text| - 1] as int != 32 && text[|text| - 1] as int != 9
    && forall i :: 0 <= i < |text| ==> text[i] as int != 47 && text[i] as int != 92
  }

  /** A folder name is accepted exactly when it stays in its folder, is not hidden and survives a line of its own. */
  lemma FolderExactly(text: string)
    ensures IsFolder(text) <==> GoodFolder(text)
  {
  }

  predicate HasSeparator(text: string) {
    exists i :: 0 <= i < |text| && (text[i] as int == 47 || text[i] as int == 92)
  }

  /** The reason a name is refused, in the order the reasons are looked for. */
  lemma RefusalExactly(text: string)
    ensures ParseFolder(text) ==
      if |text| == 0 then Err(EmptyName)
      else if text[0] == '#' then Err(CommentMarker)
      else if text[0] == ' ' || text[0] == '\t' then Err(LeadingWhitespace)
      else if text[|text| - 1] == ' ' || text[|text| - 1] == '\t' then Err(TrailingWhitespace)
      else if HasSeparator(text) then Err(PathSeparator)
      else if text[0] == '.' then (if text == "." || text == ".." then Err(RelativeMarker) else Err(HiddenFolder))
      else Ok(text)
  {
  }

  // ---- Lines

  /** The lines of a text, with a line feed between them. */
  function Text(lines: seq<string>): string
    requires lines != []
  {
    if |lines| == 1 then lines[0] else lines[0] + "\n" + Text(lines[1..])
  }

  predicate Lined(lines: seq<string>) {
    |lines| > 0 && forall i :: 0 <= i < |lines| ==> '\n' !in lines[i]
  }

  /** A line without the carriage return at its end. */
  function Bare(line: string): string {
    if |line| > 0 && line[|line| - 1] as int == 13 then line[..|line| - 1] else line
  }

  /** Empty or a comment. */
  predicate Silent(line: string) {
    |Bare(line)| == 0 || Bare(line)[0] as int == 35
  }

  function Named(lines: seq<string>): seq<string> {
    if lines == [] then [] else (if Silent(lines[0]) then [] else [Bare(lines[0])]) + Named(lines[1..])
  }

  predicate AllGood(lines: seq<string>) {
    forall i :: 0 <= i < |lines| ==> Silent(lines[i]) || GoodFolder(Bare(lines[i]))
  }

  /** Every text has its lines, and only those. */
  lemma {:induction false} LinesOf(text: string) returns (lines: seq<string>)
    ensures Lined(lines) && Text(lines) == text
    decreases |text|
  {
    var end := LineEnd(text);
    if end == |text| {
      lines := [text];
      assert text[..end] == text;
    } else {
      var rest := LinesOf(text[end + 1..]);
      lines := [text[..end]] + rest;
      assert lines[1..] == rest;
      assert text == text[..end] + "\n" + text[end + 1..];
    }
  }

  lemma {:induction false} LineEndAlone(line: string)
    requires '\n' !in line
    ensures LineEnd(line) == |line|
  {
    if line != "" {
      assert line[0] in line;
      LineEndAlone(line[1..]);
    }
  }

  lemma LineMeaning(line: string)
    ensures LineFolders(line) ==
      if Silent(line) then Ok([]) else if GoodFolder(Bare(line)) then Ok([Bare(line)]) else Err(MalformedEntry)
  {
    FolderExactly(Bare(line));
  }

  lemma ParsedFirst(lines: seq<string>)
    requires Lined(lines) && |lines| > 1
    ensures Parsed(Text(lines)) == Joined(LineFolders(lines[0]), Parsed(Text(lines[1..])))
  {
    var line, rest := lines[0], Text(lines[1..]);
    LineEndOfLine(line, rest);
    var text := line + "\n" + rest;
    assert text[..|line|] == line && text[|line| + 1..] == rest;
    ParsedMore(text, |line|);
  }

  lemma ParsedOnly(line: string)
    requires '\n' !in line
    ensures Parsed(line) == LineFolders(line)
  {
    LineEndAlone(line);
    ParsedLast(line, |line|);
    assert line[..|line|] == line;
  }

  predicate Says(r: Result<seq<Folder>, OrderFileError>, lines: seq<string>) {
    if AllGood(lines) then r.Ok? && r.value == Named(lines) else r == Err(MalformedEntry)
  }

  /** A file is read line by line: it names its good folders in order, and one bad line refuses all of it. */
  lemma {:induction false} ParsedExactly(lines: seq<string>)
    requires Lined(lines)
    ensures Says(Parsed(Text(lines)), lines)
    decreases lines
  {
    LineMeaning(lines[0]);
    if |lines| == 1 {
      ParsedOnly(lines[0]);
      assert lines[1..] == [];
    } else {
      assert forall i :: 0 < i < |lines| ==> lines[i] == lines[1..][i - 1];
      ParsedExactly(lines[1..]);
      ParsedFirst(lines);
      SaysFirst(lines);
    }
  }

  lemma SaysFirst(lines: seq<string>)
    requires lines != []
    ensures AllGood(lines) <==> (Silent(lines[0]) || GoodFolder(Bare(lines[0]))) && AllGood(lines[1..])
  {
    assert forall i :: 0 < i < |lines| ==> lines[i] == lines[1..][i - 1];
  }

  /** What is printed: two comments, then a line for each folder, every line ended by a carriage return and a line feed. */
  lemma PrintedMeaning(folders: seq<Folder>, k: nat)
    requires k <= |folders|
    ensures Printed(folders)
      == FIRST_COMMENT + "\r\n" + (SECOND_COMMENT + "\r\n") + (Lines(folders[..k]) + Lines(folders[k..]))
    ensures k < |folders| ==> Lines(folders[k..]) == folders[k] + "\r\n" + Lines(folders[k + 1..])
    ensures FIRST_COMMENT[0] == '#' && SECOND_COMMENT[0] == '#'
  {
    LinesJoin(folders, k);
    FirstCommentPlain();
    SecondCommentPlain();
  }

  lemma {:induction false} LinesJoin(folders: seq<Folder>, k: nat)
    requires k <= |folders|
    ensures Lines(folders) == Lines(folders[..k]) + Lines(folders[k..])
    decreases k
  {
    if k == 0 {
      assert folders[0..] == folders;
    } else {
      LinesJoin(folders[1..], k - 1);
      assert folders[1..][..k - 1] == folders[..k][1..] && folders[1..][k - 1..] == folders[k..];
    }
  }
}
