/** Which relative paths a manifest may name, and why a staging name is never one of them. */
module PayloadPath {
  import opened Wrappers

  datatype PathError =
    | Empty
    | TooLong
    | ControlCharacter
    | AlternateStream
    | Absolute
    | EmptyComponent
    | Traversal
    | TrailingDotOrSpace
    | ReservedDeviceName
    | ExtensionNotAllowed
    | MetadataOutOfPlace

  const PATH_LIMIT: nat := 240
  const METADATA_NAME: string := "mod.json"
  const PAYLOAD_EXTENSION: string := ".dat"
  const EXTENSION_FILE_NAME: string := "blacktearemos_extensions.dll"
  const STAGING_SUFFIX: string := ".wgrdmm-new"

  const RESERVED_NAMES: set<string> := {
    "CON", "PRN", "AUX", "NUL",
    "COM1", "COM2", "COM3", "COM4", "COM5", "COM6", "COM7", "COM8", "COM9",
    "LPT1", "LPT2", "LPT3", "LPT4", "LPT5", "LPT6", "LPT7", "LPT8", "LPT9"}

  function Upper(c: char): char {
    if 'a' <= c <= 'z' then (c as int - 32) as char else c
  }

  function ToUpper(text: string): (r: string)
    ensures |r| == |text|
  {
    seq(|text|, i requires 0 <= i < |text| => Upper(text[i]))
  }

  function ForwardSlashes(text: string): (r: string)
    ensures |r| == |text|
  {
    seq(|text|, i requires 0 <= i < |text| => if text[i] == '\\' then '/' else text[i])
  }

  /** First occurrence at or after `start`, or the length of the text. */
  function Find(text: string, c: char, start: nat): (i: nat)
    requires start <= |text|
    ensures start <= i <= |text|
    ensures i < |text| ==> text[i] == c
    ensures forall j :: start <= j < i ==> text[j] != c
    decreases |text| - start
  {
    if start == |text| || text[start] == c then start else Find(text, c, start + 1)
  }

  function Components(text: string, start: nat): (r: seq<string>)
    requires start <= |text|
    ensures r != []
    decreases |text| - start
  {
    var separator := Find(text, '/', start);
    if separator == |text| then [text[start..]] else [text[start..separator]] + Components(text, separator + 1)
  }

  function CharacterError(text: string): Option<PathError> {
    if text == "" then None
    else if text[0] < ' ' then Some(ControlCharacter)
    else if text[0] == ':' then Some(AlternateStream)
    else CharacterError(text[1..])
  }

  function ComponentError(component: string): Option<PathError> {
    if component == "" then Some(EmptyComponent)
    else if component == "." || component == ".." then Some(Traversal)
    else if component[|component| - 1] == '.' || component[|component| - 1] == ' ' then Some(TrailingDotOrSpace)
    else if ToUpper(component[..Find(component, '.', 0)]) in RESERVED_NAMES then Some(ReservedDeviceName)
    else None
  }

  function FirstComponentError(components: seq<string>): Option<PathError> {
    if components == [] then None
    else if ComponentError(components[0]).Some? then ComponentError(components[0])
    else FirstComponentError(components[1..])
  }

  predicate HasPayloadExtension(component: string) {
    |component| > |PAYLOAD_EXTENSION|
    && ToUpper(component[|component| - |PAYLOAD_EXTENSION|..]) == ToUpper(PAYLOAD_EXTENSION)
  }

  /** The verdict on the final component, once every component is well formed. */
  function LeafVerdict(normalised: string, components: seq<string>): Result<string, PathError>
    requires components != []
  {
    var leaf := components[|components| - 1];
    if ToUpper(leaf) == ToUpper(EXTENSION_FILE_NAME) then
      if |components| != 1 then Err(ExtensionNotAllowed) else Ok(EXTENSION_FILE_NAME)
    else if ToUpper(leaf) == ToUpper(METADATA_NAME) then
      if |components| != 1 then Err(MetadataOutOfPlace) else Ok(normalised)
    else if !HasPayloadExtension(leaf) then Err(ExtensionNotAllowed)
    else Ok(normalised)
  }

  function Normalise(path: string): Result<string, PathError> {
    if path == "" then Err(Empty)
    else if |path| > PATH_LIMIT then Err(TooLong)
    else
      var normalised := ForwardSlashes(path);
      if CharacterError(normalised).Some? then Err(CharacterError(normalised).value)
      else if normalised[0] == '/' then Err(Absolute)
      else
        var components := Components(normalised, 0);
        if FirstComponentError(components).Some? then Err(FirstComponentError(components).value)
        else LeafVerdict(normalised, components)
  }

  method ScanCharacters(text: string) returns (verdict: Option<PathError>)
    ensures verdict == CharacterError(text)
  {
    for i := 0 to |text|
      invariant CharacterError(text) == CharacterError(text[i..])
    {
      if text[i] < ' ' {
        return Some(ControlCharacter);
      }
      if text[i] == ':' {
        return Some(AlternateStream);
      }
    }
    return None;
  }

  method SplitComponents(text: string) returns (components: seq<string>)
    ensures components == Components(text, 0)
  {
    components := [];
    var start := 0;
    while true
      invariant start <= |text|
      invariant Components(text, 0) == components + Components(text, start)
      decreases |text| - start
    {
      var separator := Find(text, '/', start);
      components := components + [text[start..separator]];
      if separator == |text| {
        assert text[start..separator] == text[start..];
        break;
      }
      start := separator + 1;
    }
  }

  method ValidateComponents(components: seq<string>) returns (verdict: Option<PathError>)
    ensures verdict == FirstComponentError(components)
  {
    for i := 0 to |components|
      invariant FirstComponentError(components) == FirstComponentError(components[i..])
    {
      verdict := ComponentError(components[i]);
      if verdict.Some? {
        return;
      }
    }
    return None;
  }

  method NormalisePath(path: string) returns (r: Result<string, PathError>)
    ensures r == Normalise(path)
  {
    if path == "" {
      return Err(Empty);
    }
    if |path| > PATH_LIMIT {
      return Err(TooLong);
    }
    var normalised := ForwardSlashes(path);
    var verdict := ScanCharacters(normalised);
    if verdict.Some? {
      return Err(verdict.value);
    }
    if normalised[0] == '/' {
      return Err(Absolute);
    }
    var components := SplitComponents(normalised);
    verdict := ValidateComponents(components);
    if verdict.Some? {
      return Err(verdict.value);
    }
    return LeafVerdict(normalised, components);
  }

  /** The paths `Normalise` hands out, as `NormaliseIdempotent` shows. */
  predicate IsPayloadPath(path: string) {
    Normalise(path) == Ok(path)
  }

  /** The last component is what follows the last separator. */
  lemma {:induction false} LeafEndsText(text: string, start: nat)
    requires start < |text| && text[|text| - 1] != '/'
    ensures
      var leaf := Components(text, start)[|Components(text, start)| - 1];
      leaf != "" && leaf[|leaf| - 1] == text[|text| - 1]
    decreases |text| - start
  {
    var separator := Find(text, '/', start);
    if separator < |text| {
      LeafEndsText(text, separator + 1);
    }
  }

  lemma {:induction false} SlashLeavesEmptyComponent(text: string, start: nat)
    requires start < |text| && text[|text| - 1] == '/'
    ensures Components(text, start)[|Components(text, start)| - 1] == ""
    decreases |text| - start
  {
    var separator := Find(text, '/', start);
    if separator + 1 < |text| {
      SlashLeavesEmptyComponent(text, separator + 1);
    }
  }

  lemma UpperLast(a: string, b: string)
    requires a != "" && ToUpper(a) == ToUpper(b)
    ensures b != "" && Upper(a[|a| - 1]) == Upper(b[|b| - 1])
  {
    assert ToUpper(a)[|a| - 1] == ToUpper(b)[|b| - 1];
  }

  /** Every accepted spelling ends in one of three letters. */
  lemma AcceptedEnding(path: string)
    requires path != "" && Normalise(path).Ok?
    ensures Upper(path[|path| - 1]) in {'T', 'N', 'L'}
  {
    var normalised := ForwardSlashes(path);
    var components := Components(normalised, 0);
    var leaf := components[|components| - 1];
    if normalised[|path| - 1] == '/' {
      SlashLeavesEmptyComponent(normalised, 0);
      LastComponentChecked(components);
    } else {
      LeafEndsText(normalised, 0);
      if ToUpper(leaf) == ToUpper(EXTENSION_FILE_NAME) {
        UpperLast(leaf, EXTENSION_FILE_NAME);
      } else if ToUpper(leaf) == ToUpper(METADATA_NAME) {
        UpperLast(leaf, METADATA_NAME);
      } else {
        UpperLast(leaf[|leaf| - 4..], PAYLOAD_EXTENSION);
      }
    }
  }

  lemma {:induction false} LastComponentChecked(components: seq<string>)
    requires components != [] && FirstComponentError(components).None?
    ensures ComponentError(components[|components| - 1]).None?
  {
    if |components| > 1 {
      LastComponentChecked(components[1..]);
    }
  }

  /** A name carrying the staging suffix is refused, whatever precedes the suffix. */
  lemma StagingNameRefused(stem: string)
    ensures Normalise(stem + STAGING_SUFFIX).Err?
  {
    if Normalise(stem + STAGING_SUFFIX).Ok? {
      AcceptedEnding(stem + STAGING_SUFFIX);
    }
  }

  lemma LongNameNotReserved(stem: string)
    requires |stem| > 4
    ensures ToUpper(stem) !in RESERVED_NAMES
  {
    assert forall name :: name in RESERVED_NAMES ==> |name| <= 4;
  }

  lemma {:induction false} FindPast(text: string, c: char, start: nat, stop: nat)
    requires start <= stop <= |text| && forall j :: start <= j < stop ==> text[j] != c
    ensures Find(text, c, start) >= stop
    decreases stop - start
  {
    if start < stop {
      FindPast(text, c, start + 1, stop);
    }
  }

  lemma ExtensionNamePlain()
    ensures forall i :: 0 <= i < |EXTENSION_FILE_NAME| ==>
      var c := EXTENSION_FILE_NAME[i]; c >= ' ' && c != ':' && c != '/' && c != '\\'
  {
  }

  lemma ExtensionNameComponent()
    ensures ComponentError(EXTENSION_FILE_NAME).None?
  {
    FindPast(EXTENSION_FILE_NAME, '.', 0, 5);
    LongNameNotReserved(EXTENSION_FILE_NAME[..Find(EXTENSION_FILE_NAME, '.', 0)]);
  }

  /** A single well-formed component is judged on its leaf alone. */
  lemma SingleComponent(name: string)
    requires 0 < |name| <= PATH_LIMIT && ComponentError(name).None?
    requires forall i :: 0 <= i < |name| ==> name[i] >= ' ' && name[i] != ':' && name[i] != '/' && name[i] != '\\'
    ensures Normalise(name) == LeafVerdict(name, [name])
  {
    assert ForwardSlashes(name) == name;
    PlainTextHasNoCharacterError(name);
    FindPast(name, '/', 0, |name|);
    assert Components(name, 0) == [name];
    assert [name][1..] == [];
    assert FirstComponentError([name]).None?;
  }

  lemma ExtensionNameAccepted()
    ensures IsPayloadPath(EXTENSION_FILE_NAME)
  {
    ExtensionNameComponent();
    ExtensionNamePlain();
    SingleComponent(EXTENSION_FILE_NAME);
  }

  lemma {:induction false} PlainTextHasNoCharacterError(text: string)
    requires forall i :: 0 <= i < |text| ==> text[i] >= ' ' && text[i] != ':'
    ensures CharacterError(text).None?
  {
    if text != "" {
      PlainTextHasNoCharacterError(text[1..]);
    }
  }

  /** Normalising twice changes nothing: exactly the fixed points are handed out. */
  lemma NormaliseIdempotent(path: string)
    requires Normalise(path).Ok?
    ensures IsPayloadPath(Normalise(path).value)
  {
    var result := Normalise(path).value;
    if result == EXTENSION_FILE_NAME {
      ExtensionNameAccepted();
    } else {
      assert ForwardSlashes(result) == result;
    }
  }
}
