/** The line-by-line logic of `ConfigLoader::load`: comments are skipped,
    `[section]` lines select (and create) a section, `key = value` lines set one
    member of the current section's parameter record, and the records come out
    in the order of their section names. Reading the file is left to the
    caller, who passes its lines; the numeric conversions are library calls and
    are passed in as `Readers`. */
module ConfigLoader {
  import opened Wrappers
  import opened MachineInts
  import opened Strings
  import opened OrderedMap
  import opened ParseError
  import opened Buddha

  /** What `load` throws: `UnableOpenConfigFileException`, the
      `std::out_of_range` that `trim` lets escape, or a
      `ParsingConfigFileException`. */
  datatype LoadError = CannotOpen | OutOfRange | Parsing(exception: ParsingException)

  /** `std::stoul` and the `istringstream >>` extractions into `double`,
      `uint64_t` and `int`; `None` is a failed conversion. */
  datatype Readers = Readers(
    stoul: string -> Option<U64>,
    readDouble: string -> Option<Double>,
    readU64: string -> Option<U64>,
    readInt: string -> Option<Int32>)

  /** The text of the caught `std::stoul` exception: it is caught by value as a
      plain `std::exception`, whose `what()` in libstdc++ is this constant. */
  const SlicedWhat: string := "std::exception"

  /** What a well-formed line asks for. */
  datatype Line = Skip | Header(section: string) | Setting(key: string, value: string)

  /** Empty lines and lines starting with '#' or ';'. */
  predicate IsComment(line: string) {
    |line| == 0 || line[0] == '#' || line[0] == ';'
  }

  /** A line that is split into a key and a value. */
  predicate IsAssignment(line: string) {
    !IsComment(line) && '=' in line
  }

  /** The section a well-formed header line opens: everything after the '['
      up to and including the last non-blank character, which is the ']'. */
  function HeaderName(line: string): (r: Option<string>)
    ensures r.Some? <==> && !IsComment(line) && '=' !in line && line[0] == '['
                         && FindLastNotBlank(line).Some? && line[FindLastNotBlank(line).value] == ']'
    ensures r.Some? ==> r.value == line[1..FindLastNotBlank(line).value + 1]
    ensures r.Some? ==> |r.value| > 0 && r.value[|r.value| - 1] == ']'
  {
    if IsComment(line) || '=' in line || line[0] != '[' then None
    else
      var end := FindLastNotBlank(line).value;
      if line[end] != ']' then None else Some(line[1..end + 1])
  }

  /** Classify one line, raising the error `load` raises for it. `ln` counts
      lines from 0, the error reports `ln + 1`. */
  function Classify(filename: string, ln: nat, line: string): (r: Result<Line, LoadError>)
    ensures r == Ok(Skip) <==> IsComment(line)
    ensures r.Ok? && r.value.Header? <==> HeaderName(line).Some?
    ensures HeaderName(line).Some? ==> r == Ok(Header(HeaderName(line).value))
    ensures r.Ok? && r.value.Setting? ==> IsAssignment(line)
    ensures IsAssignment(line) ==>
              var sep := FindFirst(line, '=').value;
              && (r == Err(OutOfRange) <==> AllBlank(line[..sep]) || AllBlank(line[sep + 1..]))
              && (r.Ok? ==> r == Ok(Setting(Trim(line[..sep]).value, Trim(line[sep + 1..]).value)))
              && (r.Err? ==> r == Err(OutOfRange))
    ensures r.Err? && r.error.Parsing? ==>
              var ex := r.error.exception;
              && !IsComment(line) && '=' !in line
              && ex.filename == filename && ex.lineNumber == ln + 1 && ex.line == line
              && (line[0] != '[' ==> ex.msg == "Expected '['" && ex.pos == 0)
              && (line[0] == '[' ==> ex.msg == "Expected ']'" && ex.pos == FindLastNotBlank(line).value
                                     && line[ex.pos] != ']')
    ensures !IsComment(line) && '=' !in line && line[0] != '[' ==>
              r == Err(Parsing(Located(filename, ln + 1, "Expected '['", line, 0)))
    ensures !IsComment(line) && '=' !in line && line[0] == '[' && HeaderName(line).None? ==>
              r == Err(Parsing(Located(filename, ln + 1, "Expected ']'", line, FindLastNotBlank(line).value)))
  {
    if IsComment(line) then Ok(Skip)
    else match FindFirst(line, '=')
      case None => ClassifyBare(filename, ln, line)
      case Some(sep) => ClassifySplit(line, sep)
  }

  /** A line split at `sep`: both sides trimmed, `std::out_of_range` when
      either is blank. */
  function ClassifySplit(line: string, sep: nat): (r: Result<Line, LoadError>)
    requires sep < |line|
    ensures r == Err(OutOfRange) <==> AllBlank(line[..sep]) || AllBlank(line[sep + 1..])
    ensures r.Ok? ==> r == Ok(Setting(Trim(line[..sep]).value, Trim(line[sep + 1..]).value))
    ensures r.Err? ==> r == Err(OutOfRange)
  {
    match (Trim(line[..sep]), Trim(line[sep + 1..]))
    case (Some(key), Some(value)) => Ok(Setting(key, value))
    case _ => Err(OutOfRange)
  }

  /** A line with no '=': a header, or a missing '[' at column 0, or a
      missing ']' at the last non-blank character. */
  function ClassifyBare(filename: string, ln: nat, line: string): (r: Result<Line, LoadError>)
    requires !IsComment(line) && '=' !in line
    ensures HeaderName(line).Some? ==> r == Ok(Header(HeaderName(line).value))
    ensures line[0] != '[' ==> r == Err(Parsing(Located(filename, ln + 1, "Expected '['", line, 0)))
    ensures line[0] == '[' && HeaderName(line).None? ==>
              r == Err(Parsing(Located(filename, ln + 1, "Expected ']'", line, FindLastNotBlank(line).value)))
  {
    if line[0] != '[' then
      Err(Parsing(Located(filename, ln + 1, "Expected '['", line, 0)))
    else
      var end := FindLastNotBlank(line).value;
      if line[end] != ']' then
        Err(Parsing(Located(filename, ln + 1, "Expected ']'", line, end)))
      else
        var name := Substr(line, 1, Some(end)).value;
        assert name == line[1..end + 1];
        Ok(Header(name))
  }

  /** An indented key keeps a trailing blank, so the line is rejected as an
      unknown key. */
  lemma IndentedKeyUnknown(line: string)
    requires line == "  width = 5"
    ensures Classify("f", 0, line) == Ok(Setting("width ", "5"))
  {
    IndentedLineIsSetting(line);
    var key, value := line[..8], line[9..];
    assert Classify("f", 0, line) == Ok(Setting(Trim(key).value, Trim(value).value));
    TrimIndentedKey(key);
    TrimIndentedValue(value);
  }

  /** The key with its trailing blank is none of the known keys. */
  lemma BlankSuffixedKeyUnknown(key: string)
    requires key == "width "
    ensures !KnownKey(key)
  {
    assert key[5] == ' ';
  }

  lemma IndentedLineIsSetting(line: string)
    requires line == "  width = 5"
    ensures FindFirst(line, '=') == Some(8) && Classify("f", 0, line).Ok?
  {
    assert line[..8] == "  width " && line[9..] == " 5";
    FindFirstAt(line, '=', 8);
    assert IsAssignment(line) by {
      assert line[8] == '=';
    }
    assert !AllBlank(line[..8]) by {
      assert line[..8][2] == 'w';
    }
    assert !AllBlank(line[9..]) by {
      assert line[9..][1] == '5';
    }
  }

  lemma TrimIndentedKey(k: string)
    requires k == "  width "
    ensures Trim(k) == Some("width ")
  {
    assert FirstNonBlankFrom(k, 2) == Some(2);
    assert FirstNonBlankFrom(k, 1) == Some(2);
    assert FindFirstNotBlank(k) == Some(2);
    assert LastNonBlankBelow(k, 7) == Some(6);
    assert FindLastNotBlank(k) == Some(6);
    assert k[2..] == "width ";
  }

  lemma TrimIndentedValue(v: string)
    requires v == " 5"
    ensures Trim(v) == Some("5")
  {
    assert FirstNonBlankFrom(v, 1) == Some(1);
    assert FindFirstNotBlank(v) == Some(1);
    assert FindLastNotBlank(v) == Some(1);
    assert v[1..] == "5";
  }

  /** The keys `load` recognises. */
  predicate KnownKey(key: string) {
    key in {"name", "format", "width", "radius", "max iterations",
            "min iterations", "subpixel resolution", "threads"}
  }

  /** Which member of the record a recognised key sets: two records agree
      except on `key`'s member. */
  predicate AgreeExcept(key: string, p: Params, q: Params) {
    && (key != "name" ==> p.name == q.name)
    && (key != "format" ==> p.format == q.format)
    && (key != "width" ==> p.width == q.width)
    && (key != "radius" ==> p.radius == q.radius)
    && (key != "max iterations" ==> p.maxIterations == q.maxIterations)
    && (key != "min iterations" ==> p.minIterations == q.minIterations)
    && (key != "subpixel resolution" ==> p.subpixelResolution == q.subpixelResolution)
    && (key != "threads" ==> p.numThreads == q.numThreads)
  }

  /** Set the member `key` names to `value` (converted as the member's type
      demands), or raise the error for an unknown key or an unconvertible value. */
  function Apply(p: Params, key: string, value: string, readers: Readers,
                 filename: string, lineNumber: int): (r: Result<Params, LoadError>)
    ensures !KnownKey(key) ==> r == Err(Parsing(Unlocated(filename, lineNumber, "Unknown key: " + key)))
    ensures r.Ok? ==> KnownKey(key) && AgreeExcept(key, p, r.value)
    ensures key == "name" ==> r == Ok(p.(name := value))
    ensures key == "format" ==> r == Ok(p.(format := value))
    ensures key == "width" ==>
              && (r.Ok? <==> readers.stoul(value).Some?)
              && (r.Ok? ==> r.value == p.(width := readers.stoul(value).value))
              && (r.Err? ==> r == Err(Parsing(Unlocated(filename, lineNumber,
                                                         "Unable parse '" + value + ": " + SlicedWhat))))
    ensures key == "radius" ==>
              && (r.Ok? <==> readers.readDouble(value).Some?)
              && (r.Ok? ==> r.value == p.(radius := readers.readDouble(value).value))
              && (r.Err? ==> r == Err(Parsing(Unlocated(filename, lineNumber, "Unable parse as double: " + value))))
    ensures key == "max iterations" ==>
              && (r.Ok? <==> readers.readU64(value).Some?)
              && (r.Ok? ==> r.value == p.(maxIterations := readers.readU64(value).value))
              && (r.Err? ==> r == Err(Parsing(Unlocated(filename, lineNumber, "Unable parse as double: " + value))))
    ensures key == "min iterations" ==>
              && (r.Ok? <==> readers.readU64(value).Some?)
              && (r.Ok? ==> r.value == p.(minIterations := readers.readU64(value).value))
              && (r.Err? ==> r == Err(Parsing(Unlocated(filename, lineNumber, "Unable parse as double: " + value))))
    ensures key == "subpixel resolution" ==>
              && (r.Ok? <==> readers.readU64(value).Some?)
              && (r.Ok? ==> r.value == p.(subpixelResolution := readers.readU64(value).value))
              && (r.Err? ==> r == Err(Parsing(Unlocated(filename, lineNumber, "Unable parse as double: " + value))))
    ensures key == "threads" ==>
              && (r.Ok? <==> readers.readInt(value).Some?)
              && (r.Ok? ==> r.value == p.(numThreads := readers.readInt(value).value))
              && (r.Err? ==> r == Err(Parsing(Unlocated(filename, lineNumber, "Unable parse as double: " + value))))
    ensures r.Err? ==> r.error.Parsing? && r.error.exception.lineNumber == lineNumber
                       && r.error.exception.line == ""
  {
    var asDouble := "Unable parse as double: " + value;
    if key == "name" then Ok(p.(name := value))
    else if key == "format" then Ok(p.(format := value))
    else if key == "width" then
      match readers.stoul(value)
      case Some(w) => Ok(p.(width := w))
      case None => Err(Parsing(Unlocated(filename, lineNumber, "Unable parse '" + value + ": " + SlicedWhat)))
    else if key == "radius" then
      match readers.readDouble(value)
      case Some(x) => Ok(p.(radius := x))
      case None => Err(Parsing(Unlocated(filename, lineNumber, asDouble)))
    else if key == "max iterations" then
      match readers.readU64(value)
      case Some(n) => Ok(p.(maxIterations := n))
      case None => Err(Parsing(Unlocated(filename, lineNumber, asDouble)))
    else if key == "min iterations" then
      match readers.readU64(value)
      case Some(n) => Ok(p.(minIterations := n))
      case None => Err(Parsing(Unlocated(filename, lineNumber, asDouble)))
    else if key == "subpixel resolution" then
      match readers.readU64(value)
      case Some(n) => Ok(p.(subpixelResolution := n))
      case None => Err(Parsing(Unlocated(filename, lineNumber, asDouble)))
    else if key == "threads" then
      match readers.readInt(value)
      case Some(n) => Ok(p.(numThreads := n))
      case None => Err(Parsing(Unlocated(filename, lineNumber, asDouble)))
    else Err(Parsing(Unlocated(filename, lineNumber, "Unknown key: " + key)))
  }

  /** A later setting of the same key replaces an earlier one entirely. */
  lemma ApplyTwice(p: Params, key: string, v1: string, v2: string, readers: Readers,
                   filename: string, n1: int, n2: int)
    requires Apply(p, key, v1, readers, filename, n1).Ok?
    ensures Apply(Apply(p, key, v1, readers, filename, n1).value, key, v2, readers, filename, n2)
            == Apply(p, key, v2, readers, filename, n2)
  {
  }

  /** The loop's state: the current section's name and the map of sections. */
  datatype LoadState = LoadState(section: string, sections: seq<(string, Params)>)

  /** The map is ordered, and the current section is in it unless no header has
      been read yet (header names are never empty). */
  predicate Valid(st: LoadState) {
    Sorted(st.sections) && (st.section == "" || st.section in Keys(st.sections))
  }

  /** One iteration of the loop of `load`. A header creates its section from
      `get_empty_params` only when absent (`junk(ln)` is what that call's
      indeterminate members happen to hold); a setting reads the current
      section's record through `operator[]`, which inserts a value-initialised
      record when absent. */
  function Step(st: LoadState, filename: string, ln: nat, line: string,
                readers: Readers, junk: nat -> Params): (r: Result<LoadState, LoadError>)
    requires Valid(st)
    ensures r.Ok? ==> Valid(r.value)
    ensures r.Ok? ==> Keys(st.sections) <= Keys(r.value.sections)
  {
    match Classify(filename, ln, line)
    case Err(e) => Err(e)
    case Ok(Skip) => Ok(st)
    case Ok(Header(name)) =>
      if Get(st.sections, name).Some? then Ok(LoadState(name, st.sections))
      else Ok(LoadState(name, Put(st.sections, name, GetEmptyParams(junk(ln)))))
    case Ok(Setting(key, value)) =>
      var p := Get(st.sections, st.section).GetOr(ValueInitialized);
      match Apply(p, key, value, readers, filename, ln + 1)
      case Err(e) => Err(e)
      case Ok(p') => Ok(LoadState(st.section, Put(st.sections, st.section, p')))
  }

  /** A setting of an unrecognised key stops `load` with "Unknown key: "
      followed by the key as trimmed. */
  lemma UnknownKeyRejected(st: LoadState, filename: string, ln: nat, line: string,
                           readers: Readers, junk: nat -> Params)
    requires Valid(st)
    requires Classify(filename, ln, line).Ok? && Classify(filename, ln, line).value.Setting?
    requires !KnownKey(Classify(filename, ln, line).value.key)
    ensures Step(st, filename, ln, line, readers, junk)
            == Err(Parsing(Unlocated(filename, ln + 1, "Unknown key: " + Classify(filename, ln, line).value.key)))
  {
  }

  /** Re-opening a section keeps the values set under it before. */
  lemma ReopenKeepsValues(st: LoadState, filename: string, ln: nat, line: string,
                          readers: Readers, junk: nat -> Params)
    requires Valid(st)
    requires HeaderName(line).Some? && HeaderName(line).value in Keys(st.sections)
    ensures Step(st, filename, ln, line, readers, junk) == Ok(st.(section := HeaderName(line).value))
  {
  }

  /** A header naming an absent section makes it current and inserts the
      record `get_empty_params` returns; every other section is unchanged. */
  lemma HeaderOpensSection(st: LoadState, filename: string, ln: nat, line: string,
                           readers: Readers, junk: nat -> Params)
    requires Valid(st)
    requires HeaderName(line).Some? && HeaderName(line).value !in Keys(st.sections)
    ensures var name := HeaderName(line).value;
            var r := Step(st, filename, ln, line, readers, junk);
            && r.Ok? && r.value.section == name
            && Get(r.value.sections, name) == Some(GetEmptyParams(junk(ln)))
            && Keys(r.value.sections) == Keys(st.sections) + {name}
            && forall other :: other != name ==> Get(r.value.sections, other) == Get(st.sections, other)
  {
  }

  /** A setting changes the current section's record (creating it if needed,
      which is how settings before any header land in section "") and no
      other record. */
  lemma SettingTouchesCurrentSection(st: LoadState, filename: string, ln: nat, line: string,
                                     readers: Readers, junk: nat -> Params)
    requires Valid(st)
    requires Classify(filename, ln, line).Ok? && Classify(filename, ln, line).value.Setting?
    requires Step(st, filename, ln, line, readers, junk).Ok?
    ensures var st' := Step(st, filename, ln, line, readers, junk).value;
            var s := Classify(filename, ln, line).value;
            && st'.section == st.section
            && Keys(st'.sections) == Keys(st.sections) + {st.section}
            && Get(st'.sections, st.section).Some?
            && AgreeExcept(s.key, Get(st.sections, st.section).GetOr(ValueInitialized),
                           Get(st'.sections, st.section).value)
            && Get(st'.sections, st.section)
               == Some(Apply(Get(st.sections, st.section).GetOr(ValueInitialized), s.key, s.value,
                             readers, filename, ln + 1).value)
            && forall other :: other != st.section ==> Get(st'.sections, other) == Get(st.sections, other)
  {
  }

  /** A setting fails exactly when assigning it to the current section's record
      fails, and then with that error. */
  lemma SettingFailsAsApply(st: LoadState, filename: string, ln: nat, line: string,
                            readers: Readers, junk: nat -> Params)
    requires Valid(st)
    requires Classify(filename, ln, line).Ok? && Classify(filename, ln, line).value.Setting?
    ensures var s := Classify(filename, ln, line).value;
            var a := Apply(Get(st.sections, st.section).GetOr(ValueInitialized), s.key, s.value,
                           readers, filename, ln + 1);
            var r := Step(st, filename, ln, line, readers, junk);
            && (r.Ok? <==> a.Ok?)
            && (r.Err? ==> r.error == a.error)
  {
  }

  /** An empty or comment line leaves the state as it is. */
  lemma CommentSkipped(st: LoadState, filename: string, ln: nat, line: string,
                       readers: Readers, junk: nat -> Params)
    requires Valid(st)
    requires IsComment(line)
    ensures Step(st, filename, ln, line, readers, junk) == Ok(st)
  {
  }

  /** A line `Classify` rejects ends the step with that very error: the
      located "Expected '['" or "Expected ']'" exception, or the
      `std::out_of_range` from `trim`. */
  lemma MalformedLineFails(st: LoadState, filename: string, ln: nat, line: string,
                           readers: Readers, junk: nat -> Params)
    requires Valid(st)
    requires Classify(filename, ln, line).Err?
    ensures Step(st, filename, ln, line, readers, junk) == Err(Classify(filename, ln, line).error)
  {
  }

  /** Of two consecutive settings of one key, only the last matters: the first
      one can be dropped without changing the outcome. */
  lemma LastAssignmentWins(st: LoadState, filename: string, ln1: nat, l1: string, ln2: nat, l2: string,
                           readers: Readers, junk: nat -> Params)
    requires Valid(st)
    requires Classify(filename, ln1, l1).Ok? && Classify(filename, ln1, l1).value.Setting?
    requires Classify(filename, ln2, l2).Ok? && Classify(filename, ln2, l2).value.Setting?
    requires Classify(filename, ln1, l1).value.key == Classify(filename, ln2, l2).value.key
    requires Step(st, filename, ln1, l1, readers, junk).Ok?
    ensures Step(Step(st, filename, ln1, l1, readers, junk).value, filename, ln2, l2, readers, junk)
            == Step(st, filename, ln2, l2, readers, junk)
  {
    var s1, s2 := Classify(filename, ln1, l1).value, Classify(filename, ln2, l2).value;
    var p := Get(st.sections, st.section).GetOr(ValueInitialized);
    var p1 := Apply(p, s1.key, s1.value, readers, filename, ln1 + 1).value;
    ApplyTwice(p, s1.key, s1.value, s2.value, readers, filename, ln1 + 1, ln2 + 1);
    var second := Apply(p1, s2.key, s2.value, readers, filename, ln2 + 1);
    if second.Ok? {
      PutPut(st.sections, st.section, p1, second.value);
    }
  }

  /** The loop of `load` over the lines from line number `ln` on. */
  function ParseFrom(st: LoadState, filename: string, lines: seq<string>, ln: nat,
                     readers: Readers, junk: nat -> Params): (r: Result<LoadState, LoadError>)
    requires Valid(st)
    ensures r.Ok? ==> Valid(r.value)
    decreases |lines|
  {
    if |lines| == 0 then Ok(st)
    else match Step(st, filename, ln, lines[0], readers, junk)
      case Err(e) => Err(e)
      case Ok(st') => ParseFrom(st', filename, lines[1..], ln + 1, readers, junk)
  }

  /** The loop's lines before `i` all succeed, and line `i`, numbered
      `ln + i`, raises the error the whole loop ends with. */
  predicate FailsAt(st: LoadState, filename: string, lines: seq<string>, ln: nat,
                    readers: Readers, junk: nat -> Params, i: nat)
    requires Valid(st)
  {
    && i < |lines|
    && ParseFrom(st, filename, lines[..i], ln, readers, junk).Ok?
    && Step(ParseFrom(st, filename, lines[..i], ln, readers, junk).value, filename, ln + i, lines[i], readers, junk)
       == ParseFrom(st, filename, lines, ln, readers, junk)
  }

  /** A failed loop fails with the error of its first failing line. */
  lemma {:induction false} ParseFromFirstError(st: LoadState, filename: string, lines: seq<string>, ln: nat,
                                               readers: Readers, junk: nat -> Params)
    requires Valid(st)
    requires ParseFrom(st, filename, lines, ln, readers, junk).Err?
    ensures exists i: nat :: FailsAt(st, filename, lines, ln, readers, junk, i)
    decreases |lines|
  {
    var r := Step(st, filename, ln, lines[0], readers, junk);
    if r.Err? {
      FailsFirst(st, filename, lines, ln, readers, junk);
    } else {
      ParseFromFirstError(r.value, filename, lines[1..], ln + 1, readers, junk);
      var j: nat :| FailsAt(r.value, filename, lines[1..], ln + 1, readers, junk, j);
      FailsLater(st, r.value, filename, lines, ln, readers, junk, j);
    }
  }

  lemma FailsFirst(st: LoadState, filename: string, lines: seq<string>, ln: nat,
                   readers: Readers, junk: nat -> Params)
    requires Valid(st) && |lines| > 0
    requires Step(st, filename, ln, lines[0], readers, junk).Err?
    ensures FailsAt(st, filename, lines, ln, readers, junk, 0)
  {
    assert lines[..0] == [];
  }

  lemma FailsLater(st: LoadState, st': LoadState, filename: string, lines: seq<string>, ln: nat,
                   readers: Readers, junk: nat -> Params, j: nat)
    requires Valid(st) && |lines| > 0
    requires Step(st, filename, ln, lines[0], readers, junk) == Ok(st')
    requires FailsAt(st', filename, lines[1..], ln + 1, readers, junk, j)
    ensures FailsAt(st, filename, lines, ln, readers, junk, j + 1)
  {
    var pre := lines[..j + 1];
    assert pre[0] == lines[0] && pre[1..] == lines[1..][..j];
    assert lines[j + 1] == lines[1..][j];
  }

  /** The lines before index i succeed and line i fails. */
  predicate PassesUntil(st: LoadState, filename: string, lines: seq<string>, ln: nat,
                        readers: Readers, junk: nat -> Params, i: nat)
    requires Valid(st)
  {
    && i < |lines|
    && ParseFrom(st, filename, lines[..i], ln, readers, junk).Ok?
    && Step(ParseFrom(st, filename, lines[..i], ln, readers, junk).value, filename, ln + i, lines[i], readers, junk).Err?
  }

  /** The converse of `ParseFromFirstError`: when the lines before index i
      succeed and line i fails, the loop ends with line i's error. */
  lemma {:induction false} ParseFromStopsAt(st: LoadState, filename: string, lines: seq<string>, ln: nat,
                                            readers: Readers, junk: nat -> Params, i: nat)
    requires Valid(st) && PassesUntil(st, filename, lines, ln, readers, junk, i)
    ensures FailsAt(st, filename, lines, ln, readers, junk, i)
    decreases i
  {
    if i == 0 {
      assert lines[..0] == [];
      FailsFirst(st, filename, lines, ln, readers, junk);
    } else {
      var st' := PassesTail(st, filename, lines, ln, readers, junk, i);
      ParseFromStopsAt(st', filename, lines[1..], ln + 1, readers, junk, i - 1);
      FailsLater(st, st', filename, lines, ln, readers, junk, i - 1);
    }
  }

  /** Past a first line that succeeds, the rest passes until index i - 1. */
  lemma PassesTail(st: LoadState, filename: string, lines: seq<string>, ln: nat,
                   readers: Readers, junk: nat -> Params, i: nat) returns (st': LoadState)
    requires Valid(st) && 0 < i && PassesUntil(st, filename, lines, ln, readers, junk, i)
    ensures Step(st, filename, ln, lines[0], readers, junk) == Ok(st')
    ensures Valid(st') && PassesUntil(st', filename, lines[1..], ln + 1, readers, junk, i - 1)
  {
    var pre := lines[..i];
    assert pre[0] == lines[0] && pre[1..] == lines[1..][..i - 1];
    assert lines[1..][i - 1] == lines[i];
    ParseFromHead(st, filename, pre, ln, readers, junk);
    st' := Step(st, filename, ln, lines[0], readers, junk).value;
  }

  /** A run that succeeds on non-empty lines succeeds on the first one and
      continues from there. */
  lemma ParseFromHead(st: LoadState, filename: string, lines: seq<string>, ln: nat,
                      readers: Readers, junk: nat -> Params)
    requires Valid(st) && |lines| > 0
    requires ParseFrom(st, filename, lines, ln, readers, junk).Ok?
    ensures Step(st, filename, ln, lines[0], readers, junk).Ok?
    ensures ParseFrom(st, filename, lines, ln, readers, junk)
            == ParseFrom(Step(st, filename, ln, lines[0], readers, junk).value, filename, lines[1..], ln + 1, readers, junk)
  {
  }

  /** The names of all well-formed header lines. */
  function HeaderNames(lines: seq<string>): set<string> {
    if |lines| == 0 then {}
    else (if HeaderName(lines[0]).Some? then {HeaderName(lines[0]).value} else {})
         + HeaderNames(lines[1..])
  }

  /** Whether an assignment line comes before the first header line. */
  predicate AssignmentBeforeHeader(lines: seq<string>) {
    if |lines| == 0 then false
    else if HeaderName(lines[0]).Some? then false
    else IsAssignment(lines[0]) || AssignmentBeforeHeader(lines[1..])
  }

  /** After a successful run, the sections are those there were, those named
      by header lines, and the current one if an assignment precedes every
      header. */
  lemma {:induction false} ParseFromSections(st: LoadState, filename: string, lines: seq<string>, ln: nat,
                                             readers: Readers, junk: nat -> Params)
    requires Valid(st)
    requires ParseFrom(st, filename, lines, ln, readers, junk).Ok?
    ensures Keys(ParseFrom(st, filename, lines, ln, readers, junk).value.sections)
            == Keys(st.sections) + HeaderNames(lines)
               + (if AssignmentBeforeHeader(lines) then {st.section} else {})
    decreases |lines|
  {
    if |lines| > 0 {
      var line := lines[0];
      var st' := Step(st, filename, ln, line, readers, junk).value;
      ParseFromSections(st', filename, lines[1..], ln + 1, readers, junk);
      var c := Classify(filename, ln, line).value;
      if c.Setting? {
        SettingTouchesCurrentSection(st, filename, ln, line, readers, junk);
      }
    }
  }

  /** The initial state: no section yet (section ""), no records. */
  const Start: LoadState := LoadState("", [])

  /** The section map `load` builds from the lines of `filename`. */
  function Parse(filename: string, lines: seq<string>, readers: Readers, junk: nat -> Params): (r: Result<LoadState, LoadError>)
    ensures r.Ok? ==> Sorted(r.value.sections)
  {
    ParseFrom(Start, filename, lines, 0, readers, junk)
  }

  /** The sections of a successful parse: every header's name, plus "" when an
      assignment comes before the first header. */
  function SectionNames(lines: seq<string>): set<string> {
    HeaderNames(lines) + (if AssignmentBeforeHeader(lines) then {""} else {})
  }

  /** `load`: `None` for a file that cannot be opened; otherwise one record per
      section, in ascending order of section name. */
  function Load(filename: string, file: Option<seq<string>>, readers: Readers, junk: nat -> Params): (r: Result<seq<Params>, LoadError>)
    ensures file.None? ==> r == Err(CannotOpen)
    ensures r.Ok? ==>
              && file.Some?
              && var m := Parse(filename, file.value, readers, junk);
              && m.Ok? && Sorted(m.value.sections)
              && Keys(m.value.sections) == SectionNames(file.value)
              && |r.value| == |SectionNames(file.value)|
              && r.value == Values(m.value.sections)
    ensures file.Some? ==> (r.Err? <==> Parse(filename, file.value, readers, junk).Err?)
    ensures file.Some? && r.Err? ==> r.error == Parse(filename, file.value, readers, junk).error
  {
    match file
    case None => Err(CannotOpen)
    case Some(lines) =>
      match Parse(filename, lines, readers, junk)
      case Err(e) => Err(e)
      case Ok(st) =>
        ParseFromSections(Start, filename, lines, 0, readers, junk);
        SortedKeyCount(st.sections);
        Ok(Values(st.sections))
  }

  /** A line `Classify` rejects, after lines that all succeed, is the error
      `load` raises: for a line without '=' that does not start with '[', the
      located "Expected '['" at line i + 1, column 0. */
  lemma MalformedLineStopsLoad(filename: string, lines: seq<string>, readers: Readers, junk: nat -> Params, i: nat)
    requires i < |lines|
    requires ParseFrom(Start, filename, lines[..i], 0, readers, junk).Ok?
    requires Classify(filename, i, lines[i]).Err?
    ensures Load(filename, Some(lines), readers, junk) == Err(Classify(filename, i, lines[i]).error)
  {
    MalformedLineFails(ParseFrom(Start, filename, lines[..i], 0, readers, junk).value, filename, i, lines[i], readers, junk);
    ParseFromStopsAt(Start, filename, lines, 0, readers, junk, i);
  }
}
