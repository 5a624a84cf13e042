/**
 Reading `/etc/os-release` (`read_system_info`): `KEY=VALUE` lines become a
 key-to-value map, four keys are looked up with `"unknown"` as default, and
 the host is classified. The file is given as its sequence of lines, each
 possibly still ending in its newline; opening it is not part of the model.
 */
module OsRelease {
  import opened Wrappers
  import opened PyText
  import opened Identity

  /** The value stored for a key: surrounding whitespace and then every surrounding '"' removed. */
  function CleanValue(raw: string): (v: string)
    ensures v == [] || (v[0] != '"' && v[|v| - 1] != '"')
  {
    Trim(Strip(raw), Quotes)
  }

  /**
   One line of the file: `None` when it has no '=', otherwise the text of the
   stripped line before its first '=' and the cleaned text after it.
   */
  function SplitLine(line: string): (entry: Option<(string, string)>)
    ensures entry.Some? <==> '=' in line
    ensures entry.Some? ==> '=' !in entry.value.0
  {
    if '=' in line then
      TrimKeeps(line, Whitespace, '=');
      var parts := SplitOnce(Strip(line), '=');
      Some((parts.0, CleanValue(parts.1)))
    else
      None
  }

  /** Line `line` assigns a value to `key`. */
  predicate Defines(line: string, key: string) {
    SplitLine(line).Some? && SplitLine(line).value.0 == key
  }

  /** The map after one more line: lines without '=' leave it as it was, others (over)write their key. */
  function AddLine(data: map<string, string>, line: string): (r: map<string, string>)
    ensures '=' !in line ==> r == data
    ensures '=' in line ==> r.Keys == data.Keys + {SplitLine(line).value.0}
  {
    match SplitLine(line)
    case Some((key, value)) => data[key := value]
    case None => data
  }

  /** The map the parse loop has built after reading `lines`, in order; no key holds a '='. */
  function ParseLines(lines: seq<string>): (r: map<string, string>)
    ensures forall k :: k in r ==> '=' !in k
    decreases |lines|
  {
    if lines == [] then map[] else AddLine(ParseLines(lines[..|lines| - 1]), lines[|lines| - 1])
  }

  /** A reference reading of the file: the value of the last line defining `key`, scanning backwards. */
  function LastValue(lines: seq<string>, key: string): Option<string>
    decreases |lines|
  {
    if lines == [] then None
    else if Defines(lines[|lines| - 1], key) then Some(SplitLine(lines[|lines| - 1]).value.1)
    else LastValue(lines[..|lines| - 1], key)
  }

  /** `dict.get(key)`. */
  function Lookup(data: map<string, string>, key: string): Option<string> {
    if key in data then Some(data[key]) else None
  }

  /** `os_release_data.get(key, 'unknown')`. */
  function Field(data: map<string, string>, key: string): (r: string)
    ensures key in data ==> r == data[key]
    ensures key !in data ==> r == "unknown"
  {
    Lookup(data, key).GetOr("unknown")
  }

  /**
   What `read_system_info` returns for a file with these lines. A host is
   only ever supported when the file has an `ID` line.
   */
  function Resolve(lines: seq<string>, dnfOnPath: bool): (info: SystemInfo)
    ensures Consistent(info.systemFamily, info.packageManager, info.isSupported)
    ensures info.isSupported ==> "ID" in ParseLines(lines)
  {
    var data := ParseLines(lines);
    assert Lower("unknown") == "unknown";
    Identify(Field(data, "ID"), Field(data, "VERSION_ID"), Field(data, "VERSION_CODENAME"),
             Field(data, "PRETTY_NAME"), dnfOnPath)
  }

  /**
   `read_system_info` without its I/O: the parse loop over the lines, the
   four lookups, and the classification (the `which dnf` probe answers
   `dnfOnPath`).
   */
  method ReadSystemInfo(lines: seq<string>, dnfOnPath: bool) returns (info: SystemInfo)
    ensures info == Resolve(lines, dnfOnPath)
  {
    var osReleaseData: map<string, string> := map[];
    for i := 0 to |lines|
      invariant osReleaseData == ParseLines(lines[..i])
    {
      var line := lines[i];
      ParseOneMoreLine(lines, i);
      if '=' in line {
        AddLineWithEquals(osReleaseData, line);
        var parts := SplitOnce(Strip(line), '=');
        osReleaseData := osReleaseData[parts.0 := CleanValue(parts.1)];
      }
    }
    assert lines[..|lines|] == lines;
    var systemType := Field(osReleaseData, "ID");
    var systemVersion := Field(osReleaseData, "VERSION_ID");
    var systemCodename := Field(osReleaseData, "VERSION_CODENAME");
    var systemName := Field(osReleaseData, "PRETTY_NAME");
    info := Identify(systemType, systemVersion, systemCodename, systemName, dnfOnPath);
  }

  lemma ParseOneMoreLine(lines: seq<string>, i: int)
    requires 0 <= i < |lines|
    ensures ParseLines(lines[..i + 1]) == AddLine(ParseLines(lines[..i]), lines[i])
  {
    assert lines[..i + 1][..i] == lines[..i];
  }

  lemma AddLineWithEquals(data: map<string, string>, line: string)
    requires '=' in line
    ensures '=' in Strip(line)
    ensures AddLine(data, line) == data[SplitOnce(Strip(line), '=').0 := CleanValue(SplitOnce(Strip(line), '=').1)]
  {
    TrimKeeps(line, Whitespace, '=');
  }

  /** What one line does to one key: it sets it if the line defines it, and leaves it alone otherwise. */
  lemma AddLineAt(data: map<string, string>, line: string, key: string)
    ensures key in AddLine(data, line) <==> key in data || Defines(line, key)
    ensures Defines(line, key) ==> AddLine(data, line)[key] == SplitLine(line).value.1
    ensures !Defines(line, key) && key in data ==> AddLine(data, line)[key] == data[key]
  {
  }

  /** The last definition wins: the parsed map holds exactly what the backward scan finds. */
  lemma {:induction false} ParsedIsLastValue(lines: seq<string>, key: string)
    ensures Lookup(ParseLines(lines), key) == LastValue(lines, key)
  {
    if lines != [] {
      ParsedIsLastValue(lines[..|lines| - 1], key);
    }
  }

  /** A key some line defines is in the map. */
  lemma {:induction false} DefinedKeyPresent(lines: seq<string>, key: string, i: int)
    requires 0 <= i < |lines| && Defines(lines[i], key)
    ensures key in ParseLines(lines)
  {
    var n := |lines| - 1;
    var init := lines[..n];
    AddLineAt(ParseLines(init), lines[n], key);
    if i < n {
      assert init[i] == lines[i];
      DefinedKeyPresent(init, key, i);
    }
  }

  /** A key in the map was defined by some line. */
  lemma {:induction false} PresentKeyDefined(lines: seq<string>, key: string) returns (i: int)
    requires key in ParseLines(lines)
    ensures 0 <= i < |lines| && Defines(lines[i], key)
  {
    var n := |lines| - 1;
    var init := lines[..n];
    AddLineAt(ParseLines(init), lines[n], key);
    if Defines(lines[n], key) {
      i := n;
    } else {
      i := PresentKeyDefined(init, key);
      assert init[i] == lines[i];
    }
  }

  /** A key is in the map exactly when some line defines it. */
  lemma KeyPresentIffDefined(lines: seq<string>, key: string)
    ensures key in ParseLines(lines) <==> exists i :: 0 <= i < |lines| && Defines(lines[i], key)
  {
    if key in ParseLines(lines) {
      var i := PresentKeyDefined(lines, key);
    }
    if exists i :: 0 <= i < |lines| && Defines(lines[i], key) {
      var i :| 0 <= i < |lines| && Defines(lines[i], key);
      DefinedKeyPresent(lines, key, i);
    }
  }

  /** If line `i` defines `key` and no later line does, the map holds line `i`'s value. */
  lemma {:induction false} LastDefinitionWins(lines: seq<string>, key: string, i: int)
    requires 0 <= i < |lines| && Defines(lines[i], key)
    requires forall j :: i < j < |lines| ==> !Defines(lines[j], key)
    ensures key in ParseLines(lines) && ParseLines(lines)[key] == SplitLine(lines[i]).value.1
  {
    var n := |lines| - 1;
    var init := lines[..n];
    ParseOneMoreLine(lines, n);
    assert lines[..n + 1] == lines;
    AddLineAt(ParseLines(init), lines[n], key);
    if i < n {
      assert init[i] == lines[i];
      LastDefinitionWins(init, key, i);
    }
  }

  /**
   The four fields of the record are the last values the file gives to `ID`,
   `VERSION_ID`, `VERSION_CODENAME` and `PRETTY_NAME`, each `"unknown"` when
   no line defines it.
   */
  lemma ResolvedFields(lines: seq<string>, dnfOnPath: bool)
    ensures Resolve(lines, dnfOnPath).systemType == LastValue(lines, "ID").GetOr("unknown")
    ensures Resolve(lines, dnfOnPath).systemVersion == LastValue(lines, "VERSION_ID").GetOr("unknown")
    ensures Resolve(lines, dnfOnPath).systemCodename == LastValue(lines, "VERSION_CODENAME").GetOr("unknown")
    ensures Resolve(lines, dnfOnPath).systemName == LastValue(lines, "PRETTY_NAME").GetOr("unknown")
  {
    ParsedIsLastValue(lines, "ID");
    ParsedIsLastValue(lines, "VERSION_ID");
    ParsedIsLastValue(lines, "VERSION_CODENAME");
    ParsedIsLastValue(lines, "PRETTY_NAME");
  }

  /** The classification depends on the file only through the last `ID` and `VERSION_ID` lines. */
  lemma ResolvedClassification(lines: seq<string>, dnfOnPath: bool)
    ensures var info := Resolve(lines, dnfOnPath);
            var c := Detect(LastValue(lines, "ID").GetOr("unknown"), LastValue(lines, "VERSION_ID").GetOr("unknown"), dnfOnPath);
            info.systemFamily == c.systemFamily && info.packageManager == c.packageManager
            && info.isSupported == c.isSupported
  {
    ParsedIsLastValue(lines, "ID");
    ParsedIsLastValue(lines, "VERSION_ID");
  }

  /** An empty file: every field is "unknown" and the host is an unsupported, unknown family. */
  lemma ResolveEmptyFile(dnfOnPath: bool)
    ensures Resolve([], dnfOnPath) ==
      SystemInfo("unknown", "unknown", "unknown", "unknown", UnknownFamily, UnknownManager, false)
  {
    assert Lower("unknown") == "unknown";
  }

  /**
   `SplitLine` in full: a line whose stripped text is `key=rest`, with no
   '=' in `key`, yields `key` and the cleaned `rest`.
   */
  lemma SplitLineAt(line: string, key: string, rest: string)
    requires Strip(line) == key + "=" + rest && '=' !in key
    ensures SplitLine(line) == Some((key, CleanValue(rest)))
  {
    assert Strip(line)[|key|] == '=';
    TrimFacts(line, Whitespace);
    assert '=' in line by {
      assert line[Leading(line, Whitespace) + |key|] == '=';
    }
    SplitAfterKey(key, rest);
  }

  /** A line as os-release writes it: `KEY="value"` and a newline. */
  function QuotedLine(key: string, value: string): string {
    key + "=\"" + value + "\"\n"
  }

  /** Splitting at the first '=' gives back a key that has none. */
  lemma SplitAfterKey(key: string, rest: string)
    requires '=' !in key
    ensures SplitOnce(key + "=" + rest, '=') == (key, rest)
  {
    var body := key + "=" + rest;
    var i := FirstIndex(body, '=');
    assert body[|key|] == '=';
    assert body[..|key|] == key;
    assert body[|key| + 1..] == rest;
  }

  lemma StripQuotedLine(key: string, value: string)
    requires '=' !in key && (key == [] || !IsSpace(key[0]))
    ensures Strip(QuotedLine(key, value)) == key + "=" + ("\"" + value + "\"")
  {
    var body := key + "=" + ("\"" + value + "\"");
    assert QuotedLine(key, value) == body + "\n";
    assert body[0] == (if key == [] then '=' else key[0]);
    TrimUnique(QuotedLine(key, value), Whitespace, body, 0);
  }

  /** The stored value of a quoted text is the text itself, when it does not begin or end with a quote. */
  lemma CleanQuoted(value: string)
    requires value == [] || (value[0] != '"' && value[|value| - 1] != '"')
    ensures CleanValue("\"" + value + "\"") == value
  {
    var quoted := "\"" + value + "\"";
    TrimUnchanged(quoted, Whitespace);
    TrimUnique(quoted, Quotes, value, 1);
  }

  /**
   Reading a quoted line gives back its key and its value: the quotes go,
   whatever the value holds inside them (spaces, '=' signs) stays.
   */
  lemma QuotedLineRoundTrip(key: string, value: string)
    requires '=' !in key && (key == [] || !IsSpace(key[0]))
    requires value == [] || (value[0] != '"' && value[|value| - 1] != '"')
    ensures SplitLine(QuotedLine(key, value)) == Some((key, value))
  {
    StripQuotedLine(key, value);
    SplitLineAt(QuotedLine(key, value), key, "\"" + value + "\"");
    CleanQuoted(value);
  }

  /**
   A key written as `KEY="value"` on line `i` and not redefined afterwards
   is read back as exactly `value`, without its quotes.
   */
  lemma QuotedValueRead(lines: seq<string>, i: int, key: string, value: string)
    requires 0 <= i < |lines| && lines[i] == QuotedLine(key, value)
    requires '=' !in key && (key == [] || !IsSpace(key[0]))
    requires value == [] || (value[0] != '"' && value[|value| - 1] != '"')
    requires forall j :: i < j < |lines| ==> !Defines(lines[j], key)
    ensures key in ParseLines(lines) && ParseLines(lines)[key] == value
  {
    QuotedLineRoundTrip(key, value);
    LastDefinitionWins(lines, key, i);
  }
}
