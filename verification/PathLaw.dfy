/** What an accepted path looks like, said over positions of the path itself, and which error any other path gets. */
module PathLaw {
  import opened Wrappers
  import opened PayloadPath

  // ---- Characters and names, whatever their case

  predicate SameLetter(a: char, b: char) {
    || a == b
    || ('a' <= a <= 'z' && 'A' <= b <= 'Z' && a as int - b as int == 'a' as int - 'A' as int)
    || ('A' <= a <= 'Z' && 'a' <= b <= 'z' && b as int - a as int == 'a' as int - 'A' as int)
  }

  predicate SameName(a: string, b: string) {
    |a| == |b| && forall i :: 0 <= i < |a| ==> SameLetter(a[i], b[i])
  }

  predicate Separator(c: char) {
    c == '/' || c == '\\'
  }

  predicate Plain(c: char) {
    c as int >= 32 && c != ':'
  }

  /** CON, PRN, AUX, NUL, and COM and LPT with a digit from 1 to 9. */
  predicate DeviceName(name: string) {
    || SameName(name, "CON") || SameName(name, "PRN") || SameName(name, "AUX") || SameName(name, "NUL")
    || (|name| == 4 && (SameName(name[..3], "COM") || SameName(name[..3], "LPT")) && '1' <= name[3] <= '9')
  }

  /** A device name alone, or in front of the first dot. */
  predicate DeviceStem(s: string) {
    exists n :: 0 <= n <= |s| && (forall i :: 0 <= i < n ==> s[i] != '.') && (n < |s| ==> s[n] == '.') && DeviceName(s[..n])
  }

  // ---- Stretches

  /** From `a` to `b` the path has no separator, and one, or an end of the path, on either side. */
  predicate Stretch(path: string, a: nat, b: nat) {
    && a <= b <= |path|
    && (a == 0 || Separator(path[a - 1]))
    && (b == |path| || Separator(path[b]))
    && forall i :: a <= i < b ==> !Separator(path[i])
  }

  predicate GoodName(s: string) {
    && s != "" && s != "." && s != ".."
    && s[|s| - 1] != '.' && s[|s| - 1] != ' '
    && !DeviceStem(s)
  }

  /** A last name only its own folder may hold, or a payload name. */
  predicate GoodLeaf(leaf: string, alone: bool) {
    if SameName(leaf, "blacktearemos_extensions.dll") || SameName(leaf, "mod.json") then alone
    else |leaf| > 4 && SameName(leaf[|leaf| - 4..], ".dat")
  }

  predicate Sized(path: string) {
    0 < |path| <= 240
  }

  predicate AllPlain(path: string) {
    forall i :: 0 <= i < |path| ==> Plain(path[i])
  }

  ghost predicate GoodNames(path: string) {
    forall a: nat, b: nat :: Stretch(path, a, b) ==> GoodName(path[a..b])
  }

  ghost predicate GoodPath(path: string) {
    && Sized(path) && AllPlain(path) && GoodNames(path)
    && forall a: nat :: Stretch(path, a, |path|) ==> GoodLeaf(path[a..], a == 0)
  }

  /** Every separator is a forward slash; the extension's name is handed out in its own spelling. */
  predicate Spelled(path: string, v: string) {
    if SameName(path, "blacktearemos_extensions.dll") then v == "blacktearemos_extensions.dll"
    else |v| == |path| && forall i :: 0 <= i < |path| ==> v[i] == if Separator(path[i]) then '/' else path[i]
  }

  // ---- The case-blind comparison

  lemma SameNameExactly(a: string, b: string)
    ensures ToUpper(a) == ToUpper(b) <==> SameName(a, b)
  {
    if ToUpper(a) == ToUpper(b) {
      forall i | 0 <= i < |a|
        ensures SameLetter(a[i], b[i])
      {
        assert ToUpper(a)[i] == ToUpper(b)[i];
      }
    }
  }

  lemma UpperOf(s: string, name: string)
    requires ToUpper(name) == name
    ensures ToUpper(s) == name <==> SameName(s, name)
  {
    SameNameExactly(s, name);
  }

  /** A port: the family's three letters and a digit. */
  predicate Port(u: string, family: string) {
    |u| == 4 && u[..3] == family && '1' <= u[3] <= '9'
  }

  lemma PortListed(u: string)
    requires Port(u, "COM") || Port(u, "LPT")
    ensures u in RESERVED_NAMES
  {
    var family, digit := u[..3], u[3];
    assert u == family + [digit];
    assert digit in {'1', '2', '3', '4', '5', '6', '7', '8', '9'};
    if family == "COM" {
      assert (digit == '1' ==> u == "COM1") && (digit == '2' ==> u == "COM2") && (digit == '3' ==> u == "COM3");
      assert (digit == '4' ==> u == "COM4") && (digit == '5' ==> u == "COM5") && (digit == '6' ==> u == "COM6");
      assert (digit == '7' ==> u == "COM7") && (digit == '8' ==> u == "COM8") && (digit == '9' ==> u == "COM9");
    } else {
      assert (digit == '1' ==> u == "LPT1") && (digit == '2' ==> u == "LPT2") && (digit == '3' ==> u == "LPT3");
      assert (digit == '4' ==> u == "LPT4") && (digit == '5' ==> u == "LPT5") && (digit == '6' ==> u == "LPT6");
      assert (digit == '7' ==> u == "LPT7") && (digit == '8' ==> u == "LPT8") && (digit == '9' ==> u == "LPT9");
    }
  }

  lemma ReservedExactly(u: string)
    ensures u in RESERVED_NAMES <==> u in {"CON", "PRN", "AUX", "NUL"} || Port(u, "COM") || Port(u, "LPT")
  {
    if Port(u, "COM") || Port(u, "LPT") {
      PortListed(u);
    }
  }

  lemma PortExactly(name: string, family: string)
    requires family == "COM" || family == "LPT"
    ensures Port(ToUpper(name), family) <==> |name| == 4 && SameName(name[..3], family) && '1' <= name[3] <= '9'
  {
    if |name| == 4 {
      UpperOf(name[..3], family);
      assert ToUpper(name)[..3] == ToUpper(name[..3]);
    }
  }

  lemma DeviceNameExactly(name: string)
    ensures ToUpper(name) in RESERVED_NAMES <==> DeviceName(name)
  {
    UpperOf(name, "CON");
    UpperOf(name, "PRN");
    UpperOf(name, "AUX");
    UpperOf(name, "NUL");
    ReservedExactly(ToUpper(name));
    PortExactly(name, "COM");
    PortExactly(name, "LPT");
  }

  lemma DeviceStemExactly(s: string)
    ensures ToUpper(s[..Find(s, '.', 0)]) in RESERVED_NAMES <==> DeviceStem(s)
  {
    var n := Find(s, '.', 0);
    DeviceNameExactly(s[..n]);
    if DeviceStem(s) {
      var k :| 0 <= k <= |s| && (forall i :: 0 <= i < k ==> s[i] != '.') && (k < |s| ==> s[k] == '.') && DeviceName(s[..k]);
      assert k == n;
    }
  }

  /** What the check of one component says. */
  lemma ComponentErrorExactly(s: string)
    ensures
      match ComponentError(s)
      case None => GoodName(s)
      case Some(e) => NameError(s, e)
  {
    DeviceStemExactly(s);
  }

  predicate NameError(s: string, e: PathError) {
    match e
    case EmptyComponent => s == ""
    case Traversal => s == "." || s == ".."
    case TrailingDotOrSpace => s != "" && s != "." && s != ".." && (s[|s| - 1] == '.' || s[|s| - 1] == ' ')
    case ReservedDeviceName => s != "" && s[|s| - 1] != '.' && s[|s| - 1] != ' ' && DeviceStem(s)
    case _ => false
  }

  // ---- Components are stretches

  predicate Starts(n: string, start: nat) {
    start <= |n| && (start == 0 || Separator(n[start - 1])) && forall i :: 0 <= i < |n| ==> n[i] != '\\'
  }

  /** The stretch that starts here ends at the next separator, and any later one starts behind that. */
  lemma NextStretch(n: string, start: nat, a: nat, b: nat)
    requires Starts(n, start) && a >= start && Stretch(n, a, b)
    ensures
      var stop := Find(n, '/', start);
      && Stretch(n, start, stop)
      && (a == start ==> b == stop)
      && (a > start ==> stop < |n| && a > stop)
  {
    var stop := Find(n, '/', start);
    if a > start {
      assert n[a - 1] == '/' && start <= a - 1;
    } else {
      assert b == stop;
    }
  }

  lemma FirstStretch(n: string, start: nat)
    requires Starts(n, start)
    ensures
      var stop := Find(n, '/', start);
      Stretch(n, start, stop) && (stop < |n| ==> Starts(n, stop + 1))
  {
  }

  /** All stretches from here on are well named. */
  ghost predicate GoodFrom(n: string, start: nat) {
    forall a: nat, b: nat :: a >= start && Stretch(n, a, b) ==> GoodName(n[a..b])
  }

  /** The first ill-named stretch from here on has this error. */
  ghost predicate BadFrom(n: string, start: nat, e: PathError) {
    exists a: nat, b: nat :: a >= start && FirstBad(n, start, a, b, e)
  }

  ghost predicate FirstBad(n: string, start: nat, a: nat, b: nat, e: PathError) {
    && Stretch(n, a, b) && NameError(n[a..b], e)
    && forall c: nat, d: nat :: start <= c < a && Stretch(n, c, d) ==> GoodName(n[c..d])
  }

  lemma GoodFirst(n: string, start: nat)
    requires Starts(n, start) && GoodName(n[start..Find(n, '/', start)])
    ensures
      var stop := Find(n, '/', start);
      && (stop == |n| ==> GoodFrom(n, start))
      && (stop < |n| ==> (GoodFrom(n, stop + 1) ==> GoodFrom(n, start)))
      && (stop < |n| ==> forall e :: BadFrom(n, stop + 1, e) ==> BadFrom(n, start, e))
  {
    var stop := Find(n, '/', start);
    forall a: nat, b: nat | a >= start && Stretch(n, a, b)
      ensures a == start ==> b == stop
      ensures a > start ==> stop < |n| && a > stop
    {
      NextStretch(n, start, a, b);
    }
    if stop < |n| {
      forall e | BadFrom(n, stop + 1, e)
        ensures BadFrom(n, start, e)
      {
        var a: nat, b: nat :| a >= stop + 1 && FirstBad(n, stop + 1, a, b, e);
        assert FirstBad(n, start, a, b, e);
      }
    }
  }

  lemma BadFirst(n: string, start: nat, e: PathError)
    requires Starts(n, start) && NameError(n[start..Find(n, '/', start)], e)
    ensures BadFrom(n, start, e)
  {
    FirstStretch(n, start);
    assert FirstBad(n, start, start, Find(n, '/', start), e);
  }

  ghost predicate Judged(n: string, start: nat, verdict: Option<PathError>) {
    match verdict
    case None => GoodFrom(n, start)
    case Some(e) => BadFrom(n, start, e)
  }

  lemma JudgedFirst(n: string, start: nat)
    requires Starts(n, start)
    ensures
      var stop := Find(n, '/', start);
      match ComponentError(n[start..stop])
      case Some(e) => Judged(n, start, Some(e))
      case None => if stop == |n| then Judged(n, start, None) else forall v :: Judged(n, stop + 1, v) ==> Judged(n, start, v)
  {
    var stop := Find(n, '/', start);
    ComponentErrorExactly(n[start..stop]);
    match ComponentError(n[start..stop])
    case Some(e) => BadFirst(n, start, e);
    case None => GoodFirst(n, start);
  }

  lemma {:induction false} ComponentsJudged(n: string, start: nat)
    requires Starts(n, start)
    ensures Judged(n, start, FirstComponentError(Components(n, start)))
    decreases |n| - start
  {
    var stop := Find(n, '/', start);
    FirstStretch(n, start);
    JudgedFirst(n, start);
    ComponentsUnfold(n, start);
    if ComponentError(n[start..stop]).None? && stop < |n| {
      ComponentsJudged(n, stop + 1);
    }
  }

  lemma ComponentsUnfold(n: string, start: nat)
    requires start <= |n|
    ensures
      var stop := Find(n, '/', start);
      FirstComponentError(Components(n, start))
        == if ComponentError(n[start..stop]).Some? then ComponentError(n[start..stop])
           else if stop == |n| then None
           else FirstComponentError(Components(n, stop + 1))
  {
    var stop := Find(n, '/', start);
    if stop == |n| {
      assert n[start..stop] == n[start..];
      assert Components(n, start)[1..] == [];
    } else {
      assert Components(n, start)[1..] == Components(n, stop + 1);
    }
  }

  /** The last component is the stretch at the end, and it is alone when that starts here. */
  lemma {:induction false} LastComponent(n: string, start: nat) returns (a: nat)
    requires Starts(n, start)
    ensures a >= start && Stretch(n, a, |n|)
    ensures Components(n, start)[|Components(n, start)| - 1] == n[a..]
    ensures |Components(n, start)| == 1 <==> a == start
    decreases |n| - start
  {
    var stop := Find(n, '/', start);
    FirstStretch(n, start);
    if stop == |n| {
      a := start;
    } else {
      a := LastComponent(n, stop + 1);
    }
  }

  // ---- Characters

  /** The first character that is not plain is of this kind. */
  ghost predicate FirstOdd(text: string, e: PathError) {
    exists i :: 0 <= i < |text| && OddAt(text[i], e) && forall j :: 0 <= j < i ==> Plain(text[j])
  }

  predicate OddAt(c: char, e: PathError) {
    (e == ControlCharacter && c as int < 32) || (e == AlternateStream && c == ':')
  }

  lemma {:induction false} CharactersJudged(text: string)
    ensures
      match CharacterError(text)
      case None => AllPlain(text)
      case Some(e) => FirstOdd(text, e)
  {
    if text != "" {
      CharactersJudged(text[1..]);
      if OddAt(text[0], ControlCharacter) || OddAt(text[0], AlternateStream) {
        assert FirstOdd(text, CharacterError(text).value);
      } else if CharacterError(text).Some? {
        var i :| 0 <= i < |text[1..]| && OddAt(text[1..][i], CharacterError(text).value) && forall j :: 0 <= j < i ==> Plain(text[1..][j]);
        assert OddAt(text[i + 1], CharacterError(text).value);
        forall j | 0 <= j < i + 1
          ensures Plain(text[j])
        {
          assert j > 0 ==> text[j] == text[1..][j - 1];
        }
      } else {
        forall j | 0 <= j < |text|
          ensures Plain(text[j])
        {
          assert j > 0 ==> text[j] == text[1..][j - 1];
        }
      }
    }
  }

  lemma SlashesKeepCharacters(path: string)
    ensures AllPlain(ForwardSlashes(path)) <==> AllPlain(path)
    ensures forall e :: FirstOdd(ForwardSlashes(path), e) <==> FirstOdd(path, e)
  {
    var n := ForwardSlashes(path);
    assert forall i :: 0 <= i < |path| ==> (Plain(n[i]) <==> Plain(path[i]));
    forall e
      ensures FirstOdd(n, e) <==> FirstOdd(path, e)
    {
      assert forall i :: 0 <= i < |path| ==> (OddAt(n[i], e) <==> OddAt(path[i], e));
    }
  }

  /** Slashes of either kind make the same stretches. */
  lemma SameStretches(path: string)
    ensures Starts(ForwardSlashes(path), 0)
    ensures forall a: nat, b: nat :: Stretch(path, a, b) <==> Stretch(ForwardSlashes(path), a, b)
    ensures forall a: nat, b: nat :: Stretch(path, a, b) ==> path[a..b] == ForwardSlashes(path)[a..b]
  {
    var n := ForwardSlashes(path);
    assert forall i :: 0 <= i < |path| ==> (Separator(n[i]) <==> Separator(path[i]));
  }

  // ---- The verdict

  /** All names before the stretch are good, and it is the first with this error. */
  ghost predicate FirstIll(path: string, e: PathError) {
    exists a: nat, b: nat ::
      && Stretch(path, a, b) && NameError(path[a..b], e)
      && forall c: nat, d: nat :: c < a && Stretch(path, c, d) ==> GoodName(path[c..d])
  }

  ghost predicate IllLeaf(path: string, e: PathError) {
    exists a: nat :: Stretch(path, a, |path|) && LeafError(path[a..], a == 0, e)
  }

  predicate LeafError(leaf: string, alone: bool, e: PathError) {
    match e
    case MetadataOutOfPlace => SameName(leaf, "mod.json") && !alone
    case ExtensionNotAllowed =>
      if SameName(leaf, "blacktearemos_extensions.dll") then !alone
      else !SameName(leaf, "mod.json") && !(|leaf| > 4 && SameName(leaf[|leaf| - 4..], ".dat"))
    case _ => false
  }

  /** What each verdict says of the path, in the order the checks are made. */
  ghost predicate Reports(path: string, r: Result<string, PathError>) {
    match r
    case Ok(v) => GoodPath(path) && Spelled(path, v)
    case Err(e) =>
      match e
      case Empty => path == ""
      case TooLong => |path| > 240
      case ControlCharacter => Sized(path) && FirstOdd(path, e)
      case AlternateStream => Sized(path) && FirstOdd(path, e)
      case Absolute => Sized(path) && AllPlain(path) && Separator(path[0])
      case ExtensionNotAllowed => Sized(path) && AllPlain(path) && GoodNames(path) && IllLeaf(path, e)
      case MetadataOutOfPlace => Sized(path) && AllPlain(path) && GoodNames(path) && IllLeaf(path, e)
      case _ => Sized(path) && AllPlain(path) && !Separator(path[0]) && FirstIll(path, e)
  }

  lemma NamesReported(path: string)
    ensures
      match FirstComponentError(Components(ForwardSlashes(path), 0))
      case None => GoodNames(path)
      case Some(e) => FirstIll(path, e)
  {
    var n := ForwardSlashes(path);
    SameStretches(path);
    ComponentsJudged(n, 0);
    match FirstComponentError(Components(n, 0))
    case None =>
    case Some(e) =>
      var a: nat, b: nat :| a >= 0 && FirstBad(n, 0, a, b, e);
      assert Stretch(path, a, b) && NameError(path[a..b], e);
  }

  lemma LeafVerdictExactly(n: string, components: seq<string>, leaf: string)
    requires components != [] && components[|components| - 1] == leaf
    ensures
      match LeafVerdict(n, components)
      case Ok(v) =>
        GoodLeaf(leaf, |components| == 1) && v == if SameName(leaf, "blacktearemos_extensions.dll") then EXTENSION_FILE_NAME else n
      case Err(e) => LeafError(leaf, |components| == 1, e)
  {
    SameNameExactly(leaf, EXTENSION_FILE_NAME);
    SameNameExactly(leaf, METADATA_NAME);
    PayloadExtensionExactly(leaf);
  }

  lemma LeafReported(path: string)
    requires Sized(path) && AllPlain(path) && GoodNames(path)
    ensures Reports(path, LeafVerdict(ForwardSlashes(path), Components(ForwardSlashes(path), 0)))
  {
    var n := ForwardSlashes(path);
    SameStretches(path);
    var a := LastComponent(n, 0);
    assert Stretch(path, a, |path|) && n[a..] == path[a..|path|] == path[a..];
    LeafVerdictExactly(n, Components(n, 0), path[a..]);
    LeafIsTheOne(path, a);
    if a > 0 {
      SeparatorInside(path, a);
    }
  }

  lemma PayloadExtensionExactly(leaf: string)
    ensures HasPayloadExtension(leaf) <==> |leaf| > 4 && SameName(leaf[|leaf| - 4..], ".dat")
  {
    if |leaf| > 4 {
      SameNameExactly(leaf[|leaf| - 4..], PAYLOAD_EXTENSION);
    }
  }

  /** There is only one stretch at the end. */
  lemma LeafIsTheOne(path: string, a: nat)
    requires Stretch(path, a, |path|)
    ensures forall c: nat :: Stretch(path, c, |path|) ==> c == a
  {
    forall c: nat | Stretch(path, c, |path|)
      ensures c == a
    {
      var begins := a == 0 || Separator(path[a - 1]);
      var others := c == 0 || Separator(path[c - 1]);
      assert begins && others;
    }
  }

  /** A path with a separator is not the extension's name. */
  lemma SeparatorInside(path: string, a: nat)
    requires 0 < a <= |path| && Separator(path[a - 1])
    ensures !SameName(path, "blacktearemos_extensions.dll")
  {
    ExtensionNamePlain();
    assert EXTENSION_FILE_NAME == "blacktearemos_extensions.dll";
    if |path| == |EXTENSION_FILE_NAME| {
      assert !SameLetter(path[a - 1], EXTENSION_FILE_NAME[a - 1]);
    }
  }

  /** The verdict is the one the path deserves. */
  lemma NormaliseReports(path: string)
    ensures Reports(path, Normalise(path))
  {
    var n := ForwardSlashes(path);
    if Sized(path) {
      CharactersJudged(n);
      SlashesKeepCharacters(path);
      if AllPlain(path) && !Separator(path[0]) {
        NamesReported(path);
        if GoodNames(path) && FirstComponentError(Components(n, 0)).None? {
          LeafReported(path);
        }
      }
    }
  }

  lemma LeadingSeparatorIll(path: string)
    requires path != "" && Separator(path[0])
    ensures !GoodNames(path)
  {
    assert Stretch(path, 0, 0) && !GoodName(path[0..0]);
  }

  /** A path is accepted exactly when it is good. */
  lemma AcceptedExactly(path: string)
    ensures Normalise(path).Ok? <==> GoodPath(path)
  {
    NormaliseReports(path);
    if path != "" && Separator(path[0]) {
      LeadingSeparatorIll(path);
    }
  }

  /** No accepted path climbs out of its folder. */
  lemma AcceptedStaysInside(path: string, a: nat, b: nat)
    requires Normalise(path).Ok? && Stretch(path, a, b)
    ensures path[a..b] != ".." && path[a..b] != "." && path[a..b] != "" && !Separator(path[0])
  {
    AcceptedExactly(path);
    assert GoodName(path[a..b]);
    if Separator(path[0]) {
      LeadingSeparatorIll(path);
    }
  }

  predicate Single(s: string) {
    AllPlain(s) && forall i :: 0 <= i < |s| ==> !Separator(s[i])
  }

  lemma TwoStretches(path: string, cut: nat)
    requires cut < |path| && path[cut] == '/' && Single(path[..cut]) && Single(path[cut + 1..])
    ensures forall a: nat, b: nat :: Stretch(path, a, b) ==> (a == 0 && b == cut) || (a == cut + 1 && b == |path|)
    ensures Stretch(path, cut + 1, |path|)
  {
    assert forall i :: 0 <= i < cut ==> path[i] == path[..cut][i];
    assert forall i :: cut < i < |path| ==> path[i] == path[cut + 1..][i - cut - 1];
  }

  lemma EndsPlain(leaf: string)
    requires |leaf| > 4 && leaf[|leaf| - 4..] == ".dat"
    ensures GoodLeaf(leaf, false)
  {
    assert leaf[|leaf| - 1] == leaf[|leaf| - 4..][3] == 't';
    assert "blacktearemos_extensions.dll"[27] == 'l' && "mod.json"[7] == 'n';
  }

  lemma FolderPathGood(path: string, cut: nat)
    requires |path| <= 240 && cut < |path| && path[cut] == '/' && Single(path[..cut]) && Single(path[cut + 1..])
    requires GoodName(path[..cut]) && GoodName(path[cut + 1..]) && GoodLeaf(path[cut + 1..], false)
    ensures GoodPath(path)
  {
    TwoStretches(path, cut);
    forall i | 0 <= i < |path|
      ensures Plain(path[i])
    {
      assert i < cut ==> path[i] == path[..cut][i];
      assert i > cut ==> path[i] == path[cut + 1..][i - cut - 1];
    }
    assert path[0..cut] == path[..cut] && path[cut + 1..|path|] == path[cut + 1..];
  }

  lemma AcceptedAsItStands(path: string, cut: nat)
    requires GoodPath(path) && cut < |path| && path[cut] == '/' && forall i :: 0 <= i < |path| ==> path[i] != '\\'
    ensures Normalise(path) == Ok(path)
  {
    AcceptedExactly(path);
    NormaliseReports(path);
    SeparatorInside(path, cut + 1);
    SpelledAlready(path, Normalise(path).value);
  }

  lemma SpelledAlready(path: string, v: string)
    requires forall i :: 0 <= i < |path| ==> path[i] != '\\'
    ensures Spelled(path, v) && !SameName(path, "blacktearemos_extensions.dll") ==> v == path
  {
  }

  lemma DatLeaf(name: string)
    requires Single(name) && name != ""
    ensures
      var leaf := name + ".dat";
      Single(leaf) && |leaf| > 4 && leaf[|leaf| - 4..] == ".dat"
  {
  }

  lemma FolderAndLeaf(folder: string, leaf: string, path: string)
    requires path == folder + "/" + leaf && |path| <= 240
    requires Single(folder) && GoodName(folder) && Single(leaf) && GoodName(leaf) && GoodLeaf(leaf, false)
    ensures Normalise(path) == Ok(path)
  {
    var cut := |folder|;
    assert path[cut] == '/' && path[..cut] == folder && path[cut + 1..] == leaf;
    FolderPathGood(path, cut);
    AcceptedAsItStands(path, cut);
  }

  /** A payload file in a folder, both well named, is accepted as it stands. */
  lemma FileInFolderAccepted(folder: string, name: string, path: string)
    requires Single(folder) && GoodName(folder) && Single(name) && GoodName(name + ".dat") && name != ""
    requires path == folder + "/" + (name + ".dat") && |path| <= 240
    ensures Normalise(path) == Ok(path)
  {
    DatLeaf(name);
    EndsPlain(name + ".dat");
    FolderAndLeaf(folder, name + ".dat", path);
  }
}
