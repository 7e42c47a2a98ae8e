/**
 * The proxy client's configuration: the small INI parser (`parse_ini`),
 * the `[Server]` section read into a `ConnectionConfig` (`load_from_ini`),
 * the environment fallback (`load_from_env`) and the `Exclusive` flag.
 * Reading the file and the environment is not modelled: their contents are
 * parameters.
 */
module ClientConfig {
  import opened Wrappers
  import opened Text

  /** Section name to key to value (`HashMap<String, HashMap<String, String>>`). */
  type Sections = map<string, map<string, string>>

  /** What the parser carries from line to line. */
  datatype IniState = IniState(current: string, sections: Sections)

  const InitialState := IniState("", map[])

  /**
   * `str::lines`: the pieces between `'\n'` characters, with no last empty
   * piece after a final `'\n'`. A `'\r'` before a `'\n'` stays on the line
   * here; `Step` trims every line, which removes it either way.
   */
  function Lines(content: string): (r: seq<string>)
    ensures content == [] ==> r == []
  {
    if content == [] then []
    else
      var pieces := Split(content, '\n');
      if pieces[|pieces| - 1] == [] then pieces[..|pieces| - 1] else pieces
  }

  predicate IsIgnored(line: string)
  {
    line == [] || line[0] == ';' || line[0] == '#'
  }

  predicate IsHeader(line: string)
  {
    line != [] && line[0] == '[' && line[|line| - 1] == ']'
  }

  /** The entries of a section, empty when the section does not exist yet (`or_insert_with(HashMap::new)`). */
  function SectionOf(sections: Sections, name: string): map<string, string>
  {
    if name in sections then sections[name] else map[]
  }

  /** What a trimmed line is to the parser. */
  datatype LineKind = Ignored | Header(name: string) | Pair(key: string, value: string) | Unrecognised

  /**
   * A trimmed line: blank or a `;` / `#` comment; `[name]`; `key=value`
   * split at the first `=` with both halves trimmed; or anything else.
   */
  function Classify(line: string): (k: LineKind)
    ensures k.Ignored? <==> IsIgnored(line)
    ensures k.Header? <==> !IsIgnored(line) && IsHeader(line)
    ensures k.Header? ==> |line| >= 2 && k.name == line[1..|line| - 1]
    ensures k.Pair? <==> !IsIgnored(line) && !IsHeader(line) && Find(line, '=').Some?
  {
    if IsIgnored(line) then Ignored
    else if IsHeader(line) then Header(line[1..|line| - 1])
    else match Find(line, '=')
      case None => Unrecognised
      case Some(eq) => Pair(Trim(line[..eq]), Trim(line[eq + 1..]))
  }

  /** One line of `parse_ini`'s loop. */
  function Step(st: IniState, raw: string): (r: IniState)
  {
    match Classify(Trim(raw))
      case Ignored => st
      case Unrecognised => st
      case Header(name) => IniState(name, if name in st.sections then st.sections else st.sections[name := map[]])
      case Pair(key, value) =>
        IniState(st.current, st.sections[st.current := SectionOf(st.sections, st.current)[key := value]])
  }

  /** The parser's state after the given lines, from the empty state with the unnamed section current. */
  function ParseLines(lines: seq<string>): (r: IniState)
  {
    if lines == [] then InitialState else Step(ParseLines(lines[..|lines| - 1]), lines[|lines| - 1])
  }

  /** `parse_ini` */
  method ParseIni(content: string) returns (sections: Sections)
    ensures sections == ParseLines(Lines(content)).sections
  {
    var lines := Lines(content);
    sections := ParseAll(lines);
  }

  /** `parse_ini`'s loop over the lines of the file. */
  method ParseAll(lines: seq<string>) returns (sections: Sections)
    ensures sections == ParseLines(lines).sections
  {
    var current: string := "";
    sections := map[];
    for i := 0 to |lines|
      invariant IniState(current, sections) == ParseLines(lines[..i])
    {
      assert lines[..i + 1][..i] == lines[..i];
      current, sections := ParseLine(current, sections, lines[i]);
    }
    assert lines[..|lines|] == lines;
  }

  /** The body of `parse_ini`'s loop, one line at a time; an early return is the loop's `continue`. */
  method ParseLine(current: string, sections: Sections, raw: string) returns (current': string, sections': Sections)
    ensures IniState(current', sections') == Step(IniState(current, sections), raw)
  {
    current', sections' := current, sections;
    var line := Trim(raw);
    ghost var kind := Classify(line);
    if line == [] || line[0] == ';' || line[0] == '#' {
      assert kind == Ignored;
      return;
    }
    if line[0] == '[' && line[|line| - 1] == ']' {
      assert kind == Header(line[1..|line| - 1]);
      current' := line[1..|line| - 1];
      if current' !in sections' {
        sections' := sections'[current' := map[]];
      }
      return;
    }
    var eqPos := Find(line, '=');
    if eqPos.Some? {
      var key := Trim(line[..eqPos.value]);
      var value := Trim(line[eqPos.value + 1..]);
      assert kind == Pair(key, value);
      var section := if current in sections then sections[current] else map[];
      sections' := sections'[current := section[key := value]];
    } else {
      assert kind == Unrecognised;
    }
  }

  /** Blank lines and lines starting with `;` or `#` (after trimming), and lines that are neither a header nor a pair, change nothing. */
  lemma SkippedLinesChangeNothing(st: IniState, raw: string)
    requires IsIgnored(Trim(raw)) || (!IsHeader(Trim(raw)) && Find(Trim(raw), '=').None?)
    ensures Step(st, raw) == st
  {
  }

  /** `[name]` makes `name` current and creates it when absent; existing sections keep their entries. */
  lemma HeaderSwitchesSection(st: IniState, raw: string, name: string)
    requires Classify(Trim(raw)) == Header(name)
    ensures var r := Step(st, raw);
      r.current == name && name in r.sections
      && (forall s :: s in st.sections ==> s in r.sections && r.sections[s] == st.sections[s])
      && (name !in st.sections ==> r.sections[name] == map[])
      && r.sections.Keys == st.sections.Keys + {name}
  {
  }

  /** The key of a pair is what precedes the first `=`, trimmed; the value what follows it, trimmed. */
  lemma PairSplitsAtFirstEquals(line: string)
    requires Classify(line).Pair?
    ensures var eq := Find(line, '=').value;
      line[eq] == '=' && (forall j :: 0 <= j < eq ==> line[j] != '=')
      && Classify(line) == Pair(Trim(line[..eq]), Trim(line[eq + 1..]))
  {
  }

  /**
   * A pair is stored in the current section (created if needed),
   * replacing an earlier value of the key; nothing else changes.
   */
  lemma PairIsStored(st: IniState, raw: string, key: string, value: string)
    requires Classify(Trim(raw)) == Pair(key, value)
    ensures var r := Step(st, raw);
      r.current == st.current
      && r.sections.Keys == st.sections.Keys + {st.current}
      && r.sections[st.current] == SectionOf(st.sections, st.current)[key := value]
      && (forall s :: s in st.sections && s != st.current ==> r.sections[s] == st.sections[s])
  {
    UpdateFacts(st.sections, st.current, SectionOf(st.sections, st.current)[key := value]);
  }

  lemma UpdateFacts(m: Sections, k: string, v: map<string, string>)
    ensures m[k := v].Keys == m.Keys + {k} && m[k := v][k] == v
    ensures forall s :: s in m && s != k ==> m[k := v][s] == m[s]
  {
  }

  /** Before any header, pairs land in the unnamed section `""`. */
  lemma FirstSectionIsUnnamed(raw: string)
    requires Classify(Trim(raw)).Pair?
    ensures "" in ParseLines([raw]).sections && ParseLines([raw]).current == ""
  {
    assert [raw][..0] == [];
  }

  /** A repeated key keeps its last value. */
  lemma RepeatedKeyKeepsLast(st: IniState, first: string, second: string, key: string, v1: string, v2: string)
    requires Classify(Trim(first)) == Pair(key, v1) && Classify(Trim(second)) == Pair(key, v2)
    ensures Step(Step(st, first), second).sections[st.current][key] == v2
  {
  }

  /** The client's connection settings (`ConnectionConfig`), timeouts in milliseconds. */
  datatype ConnectionConfig = ConnectionConfig(
    serverAddr: string,
    tunerPath: string,
    connectTimeoutMs: nat,
    readTimeoutMs: nat,
    clientPriority: int,
    clientExclusive: bool)

  const DEFAULT_SERVER_ADDR: string := "127.0.0.1:12345"
  const DEFAULT_CONNECT_TIMEOUT_MS: nat := 5000
  const DEFAULT_READ_TIMEOUT_MS: nat := 30000

  /** `a` equals the lower-case word `w` once its ASCII letters are lowered. */
  predicate EqualsIgnoringCase(a: string, w: string)
  {
    |a| == |w| && forall i :: 0 <= i < |a| ==> AsciiLowerChar(a[i]) == w[i]
  }

  /**
   * The `Exclusive` flag: `1`, `true`, `yes` or `on` in any letter case.
   * (Rust's full Unicode lower-casing maps no other character onto the
   * letters of these words, so ASCII lower-casing decides the same.)
   */
  function ParseExclusive(s: string): (r: bool)
    ensures r <==> (EqualsIgnoringCase(s, "1") || EqualsIgnoringCase(s, "true")
                 || EqualsIgnoringCase(s, "yes") || EqualsIgnoringCase(s, "on"))
  {
    var lower := AsciiLower(s);
    lower == "1" || lower == "true" || lower == "yes" || lower == "on"
  }

  lemma ExclusiveExamples()
    ensures ParseExclusive("TRUE") && ParseExclusive("On") && ParseExclusive("1") && ParseExclusive("yEs")
    ensures !ParseExclusive("0") && !ParseExclusive("") && !ParseExclusive(" true") && !ParseExclusive("enable")
  {
    assert EqualsIgnoringCase("TRUE", "true");
    assert EqualsIgnoringCase("On", "on");
    assert EqualsIgnoringCase("yEs", "yes");
    assert !EqualsIgnoringCase(" true", "true");
    assert !EqualsIgnoringCase("enable", "true");
  }

  /** The first of two keys that is present, as `get(a).or_else(|| get(b))`. */
  function GetEither(section: map<string, string>, a: string, b: string): (r: Option<string>)
    ensures r.Some? <==> a in section || b in section
    ensures a in section ==> r == Some(section[a])
    ensures a !in section && b in section ==> r == Some(section[b])
  {
    if a in section then Some(section[a]) else if b in section then Some(section[b]) else None
  }

  /** A value parsed as `T` when present and well-formed, else the default. */
  function ParsedOr(section: map<string, string>, key: string, lo: int, hi: int, default: int): (r: int)
    requires lo <= 0 < hi
    ensures key in section && ParseInt(section[key], lo, hi).Some? ==> r == ParseInt(section[key], lo, hi).value
    ensures !(key in section && ParseInt(section[key], lo, hi).Some?) ==> r == default
  {
    if key in section then ParseInt(section[key], lo, hi).UnwrapOr(default) else default
  }

  /** The `[Server]` section's settings, with the defaults for what is absent or malformed. */
  function ConfigOfSection(section: map<string, string>): (r: ConnectionConfig)
    ensures r.serverAddr == GetEither(section, "Address", "Server").UnwrapOr(DEFAULT_SERVER_ADDR)
    ensures r.tunerPath == GetEither(section, "Tuner", "TunerPath").UnwrapOr("")
    ensures r.clientExclusive <==> "Exclusive" in section && ParseExclusive(section["Exclusive"])
    ensures "ConnectTimeout" !in section ==> r.connectTimeoutMs == DEFAULT_CONNECT_TIMEOUT_MS
    ensures "ReadTimeout" !in section ==> r.readTimeoutMs == DEFAULT_READ_TIMEOUT_MS
    ensures "Priority" !in section ==> r.clientPriority == 0
    ensures "ConnectTimeout" in section ==>
      r.connectTimeoutMs == ParseInt(section["ConnectTimeout"], 0, U64_MAX).UnwrapOr(DEFAULT_CONNECT_TIMEOUT_MS)
    ensures "ReadTimeout" in section ==>
      r.readTimeoutMs == ParseInt(section["ReadTimeout"], 0, U64_MAX).UnwrapOr(DEFAULT_READ_TIMEOUT_MS)
    ensures "Priority" in section ==> r.clientPriority == ParseInt(section["Priority"], I32_MIN, I32_MAX).UnwrapOr(0)
    ensures I32_MIN <= r.clientPriority <= I32_MAX
  {
    ConnectionConfig(
      GetEither(section, "Address", "Server").UnwrapOr(DEFAULT_SERVER_ADDR),
      GetEither(section, "Tuner", "TunerPath").UnwrapOr(""),
      ParsedOr(section, "ConnectTimeout", 0, U64_MAX, DEFAULT_CONNECT_TIMEOUT_MS),
      ParsedOr(section, "ReadTimeout", 0, U64_MAX, DEFAULT_READ_TIMEOUT_MS),
      ParsedOr(section, "Priority", I32_MIN, I32_MAX, 0),
      "Exclusive" in section && ParseExclusive(section["Exclusive"]))
  }

  /**
   * `load_from_ini`, given the file's contents (`None` when it cannot be
   * read): no configuration without a `[Server]` section.
   */
  method LoadFromIni(content: Option<string>) returns (r: Option<ConnectionConfig>)
    ensures r.Some? <==> content.Some? && "Server" in ParseLines(Lines(content.value)).sections
    ensures r.Some? ==> r.value == ConfigOfSection(ParseLines(Lines(content.value)).sections["Server"])
  {
    if content.None? {
      return None;
    }
    var sections := ParseIni(content.value);
    if "Server" !in sections {
      return None;
    }
    r := Some(ConfigOfSection(sections["Server"]));
  }

  /**
   * `load_from_env`, given the environment: the same settings from the
   * `BONDRIVER_PROXY_*` variables, with the same defaults.
   */
  function LoadFromEnv(env: map<string, string>): (r: ConnectionConfig)
    ensures "BONDRIVER_PROXY_SERVER" !in env ==> r.serverAddr == DEFAULT_SERVER_ADDR
    ensures "BONDRIVER_PROXY_TUNER" !in env ==> r.tunerPath == ""
    ensures "BONDRIVER_PROXY_SERVER" in env ==> r.serverAddr == env["BONDRIVER_PROXY_SERVER"]
    ensures "BONDRIVER_PROXY_TUNER" in env ==> r.tunerPath == env["BONDRIVER_PROXY_TUNER"]
    ensures "BONDRIVER_PROXY_CONNECT_TIMEOUT" !in env ==> r.connectTimeoutMs == DEFAULT_CONNECT_TIMEOUT_MS
    ensures "BONDRIVER_PROXY_CONNECT_TIMEOUT" in env ==>
      r.connectTimeoutMs == ParseInt(env["BONDRIVER_PROXY_CONNECT_TIMEOUT"], 0, U64_MAX).UnwrapOr(DEFAULT_CONNECT_TIMEOUT_MS)
    ensures "BONDRIVER_PROXY_READ_TIMEOUT" !in env ==> r.readTimeoutMs == DEFAULT_READ_TIMEOUT_MS
    ensures "BONDRIVER_PROXY_READ_TIMEOUT" in env ==>
      r.readTimeoutMs == ParseInt(env["BONDRIVER_PROXY_READ_TIMEOUT"], 0, U64_MAX).UnwrapOr(DEFAULT_READ_TIMEOUT_MS)
    ensures "BONDRIVER_PROXY_PRIORITY" !in env ==> r.clientPriority == 0
    ensures "BONDRIVER_PROXY_PRIORITY" in env ==>
      r.clientPriority == ParseInt(env["BONDRIVER_PROXY_PRIORITY"], I32_MIN, I32_MAX).UnwrapOr(0)
    ensures I32_MIN <= r.clientPriority <= I32_MAX
    ensures r.clientExclusive <==> "BONDRIVER_PROXY_EXCLUSIVE" in env && ParseExclusive(env["BONDRIVER_PROXY_EXCLUSIVE"])
  {
    ConnectionConfig(
      if "BONDRIVER_PROXY_SERVER" in env then env["BONDRIVER_PROXY_SERVER"] else DEFAULT_SERVER_ADDR,
      if "BONDRIVER_PROXY_TUNER" in env then env["BONDRIVER_PROXY_TUNER"] else "",
      ParsedOr(env, "BONDRIVER_PROXY_CONNECT_TIMEOUT", 0, U64_MAX, DEFAULT_CONNECT_TIMEOUT_MS),
      ParsedOr(env, "BONDRIVER_PROXY_READ_TIMEOUT", 0, U64_MAX, DEFAULT_READ_TIMEOUT_MS),
      ParsedOr(env, "BONDRIVER_PROXY_PRIORITY", I32_MIN, I32_MAX, 0),
      "BONDRIVER_PROXY_EXCLUSIVE" in env && ParseExclusive(env["BONDRIVER_PROXY_EXCLUSIVE"]))
  }

  /** `section` with `key` set to the variable `name` when the environment holds it. */
  function PutVar(section: map<string, string>, key: string, env: map<string, string>, name: string): (r: map<string, string>)
    ensures name in env ==> r == section[key := env[name]]
    ensures name !in env ==> r == section
  {
    if name in env then section[key := env[name]] else section
  }

  /** The `[Server]` section an environment stands for: each variable under its INI key. */
  function SectionOfEnv(env: map<string, string>): (section: map<string, string>)
    ensures "Server" !in section && "TunerPath" !in section
    ensures "Address" in section <==> "BONDRIVER_PROXY_SERVER" in env
    ensures "Tuner" in section <==> "BONDRIVER_PROXY_TUNER" in env
    ensures "ConnectTimeout" in section <==> "BONDRIVER_PROXY_CONNECT_TIMEOUT" in env
    ensures "ReadTimeout" in section <==> "BONDRIVER_PROXY_READ_TIMEOUT" in env
    ensures "Priority" in section <==> "BONDRIVER_PROXY_PRIORITY" in env
    ensures "Exclusive" in section <==> "BONDRIVER_PROXY_EXCLUSIVE" in env
    ensures "Address" in section ==> section["Address"] == env["BONDRIVER_PROXY_SERVER"]
    ensures "Tuner" in section ==> section["Tuner"] == env["BONDRIVER_PROXY_TUNER"]
    ensures "ConnectTimeout" in section ==> section["ConnectTimeout"] == env["BONDRIVER_PROXY_CONNECT_TIMEOUT"]
    ensures "ReadTimeout" in section ==> section["ReadTimeout"] == env["BONDRIVER_PROXY_READ_TIMEOUT"]
    ensures "Priority" in section ==> section["Priority"] == env["BONDRIVER_PROXY_PRIORITY"]
    ensures "Exclusive" in section ==> section["Exclusive"] == env["BONDRIVER_PROXY_EXCLUSIVE"]
  {
    var s1 := PutVar(map[], "Address", env, "BONDRIVER_PROXY_SERVER");
    var s2 := PutVar(s1, "Tuner", env, "BONDRIVER_PROXY_TUNER");
    var s3 := PutVar(s2, "ConnectTimeout", env, "BONDRIVER_PROXY_CONNECT_TIMEOUT");
    var s4 := PutVar(s3, "ReadTimeout", env, "BONDRIVER_PROXY_READ_TIMEOUT");
    var s5 := PutVar(s4, "Priority", env, "BONDRIVER_PROXY_PRIORITY");
    PutVar(s5, "Exclusive", env, "BONDRIVER_PROXY_EXCLUSIVE")
  }

  /** The environment gives the settings a `[Server]` section with the same values would give. */
  lemma EnvAgreesWithIni(env: map<string, string>)
    ensures LoadFromEnv(env) == ConfigOfSection(SectionOfEnv(env))
  {
    var section := SectionOfEnv(env);
    assert GetEither(section, "Address", "Server") == if "Address" in section then Some(section["Address"]) else None;
    assert GetEither(section, "Tuner", "TunerPath") == if "Tuner" in section then Some(section["Tuner"]) else None;
  }

  /** `load_config`: the INI file when it yields a configuration, else the environment. */
  method LoadConfig(iniContent: Option<string>, env: map<string, string>) returns (r: ConnectionConfig)
    ensures iniContent.Some? && "Server" in ParseLines(Lines(iniContent.value)).sections ==>
      r == ConfigOfSection(ParseLines(Lines(iniContent.value)).sections["Server"])
    ensures !(iniContent.Some? && "Server" in ParseLines(Lines(iniContent.value)).sections) ==> r == LoadFromEnv(env)
  {
    var fromIni := LoadFromIni(iniContent);
    if fromIni.Some? {
      return fromIni.value;
    }
    r := LoadFromEnv(env);
  }
}
