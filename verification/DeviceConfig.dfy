/**
 The device discovery agent's configuration file: the KEY=VALUE writer and the scanner loop
 that reads it back. Durations are printed and parsed by functions that are parameters.
 */
module DeviceConfig {
  import opened Wrappers
  import opened Text
  import opened Decimal

  /** bufio.Scanner gives up on a line that does not fit its largest buffer together with its newline. */
  const MAX_LINE := 64 * 1024 - 1

  datatype Settings = Settings(
    obmSvc: string, obsSvc: string, obmPort: int, keycloakURL: string,
    macAddr: string, serialNumber: string, uuid: string, ipAddress: string,
    extraHosts: string, caCertPath: string, debug: bool, timeout: int,
    disableInteractiveMode: bool, autoDetect: bool, useKernelArgs: bool)

  datatype Error = CannotOpen | InvalidFormat(line: nat) | InvalidValue(line: nat) | LineTooLong

  type Durations = string -> Option<int>

  // ----- Reading -----

  predicate IsQuote(c: char) {
    c == '"' || c == '\''
  }

  /** What the reader makes of the text after the equals sign. */
  function Normal(value: string): string {
    Trim(TrimSpace(value), IsQuote)
  }

  datatype Field =
    | ObmSvc | ObsSvc | ObmPort | KeycloakUrl | Mac | Serial | Uuid | Ip | ExtraHosts | CaCert
    | Debug | Timeout | AutoDetect | DisableInteractive | UseKernelArgs | Unknown

  function FieldOf(key: string): Field {
    match key
    case "OBM_SVC" => ObmSvc
    case "OBS_SVC" => ObsSvc
    case "OBM_PORT" => ObmPort
    case "KEYCLOAK_URL" => KeycloakUrl
    case "MAC" => Mac
    case "SERIAL" => Serial
    case "UUID" => Uuid
    case "IP" => Ip
    case "EXTRA_HOSTS" => ExtraHosts
    case "CA_CERT" => CaCert
    case "DEBUG" => Debug
    case "TIMEOUT" => Timeout
    case "AUTO_DETECT" => AutoDetect
    case "DISABLE_INTERACTIVE" => DisableInteractive
    case "USE_KERNEL_ARGS" => UseKernelArgs
    case _ => Unknown
  }

  predicate IsFlag(field: Field) {
    field.Debug? || field.AutoDetect? || field.DisableInteractive? || field.UseKernelArgs?
  }

  predicate IsDeviceText(field: Field) {
    field.Mac? || field.Serial? || field.Uuid? || field.Ip?
  }

  function WithText(s: Settings, field: Field, value: string): Settings {
    match field
    case ObmSvc => s.(obmSvc := value)
    case ObsSvc => s.(obsSvc := value)
    case KeycloakUrl => s.(keycloakURL := value)
    case Mac => s.(macAddr := value)
    case Serial => s.(serialNumber := value)
    case Uuid => s.(uuid := value)
    case Ip => s.(ipAddress := value)
    case ExtraHosts => s.(extraHosts := value)
    case CaCert => s.(caCertPath := value)
    case _ => s
  }

  function WithFlag(s: Settings, field: Field, flag: bool): Settings
    requires IsFlag(field)
  {
    match field
    case Debug => s.(debug := flag)
    case AutoDetect => s.(autoDetect := flag)
    case DisableInteractive => s.(disableInteractiveMode := flag)
    case UseKernelArgs => s.(useKernelArgs := flag)
  }

  /** None: the value does not parse. An unknown key changes nothing. */
  function Apply(s: Settings, key: string, value: string, parse: Durations): Option<Settings> {
    var field := FieldOf(key);
    if IsFlag(field) then
      if ParseBool(value).None? then None else Some(WithFlag(s, field, ParseBool(value).value))
    else if field == ObmPort then
      if Atoi(value).None? then None else Some(s.(obmPort := Atoi(value).value))
    else if field == Timeout then
      if parse(value).None? then None else Some(s.(timeout := parse(value).value))
    else Some(WithText(s, field, value))
  }

  function LoadLine(s: Settings, text: string, number: nat, parse: Durations): (Settings, Option<Error>) {
    var line := TrimSpace(text);
    if line == "" || HasPrefix(line, "#") then (s, None)
    else match Cut(line, '=')
      case None => (s, Some(InvalidFormat(number)))
      case Some((key, value)) =>
        match Apply(s, TrimSpace(key), Normal(value), parse)
        case None => (s, Some(InvalidValue(number)))
        case Some(s') => (s', None)
  }

  /** Lines are read in order up to the first error; what was read before it stays. */
  function LoadLines(s: Settings, lines: seq<string>, parse: Durations): (Settings, Option<Error>) {
    if lines == [] then (s, None)
    else
      var (s', error) := LoadLines(s, lines[..|lines| - 1], parse);
      if error.Some? then (s', error) else LoadLine(s', lines[|lines| - 1], |lines|, parse)
  }

  /** bufio.ScanLines: the text after the last newline is a line only when it is not empty. */
  function ScanLines(text: string): seq<string> {
    var parts := Split(text, '\n');
    if parts[|parts| - 1] == "" then parts[..|parts| - 1] else parts
  }

  /** The lines before the first one that is too long for the scanner. */
  function Delivered(lines: seq<string>): seq<string> {
    if lines == [] then []
    else
      var init := Delivered(lines[..|lines| - 1]);
      if |init| < |lines| - 1 || |lines[|lines| - 1]| > MAX_LINE then init else lines
  }

  /** The scanner's own failure is reported only when no line before it had an error. */
  function Load(s: Settings, text: string, parse: Durations): (Settings, Option<Error>) {
    var lines := ScanLines(text);
    var (s', error) := LoadLines(s, Delivered(lines), parse);
    if error.None? && Delivered(lines) != lines then (s', Some(LineTooLong)) else (s', error)
  }

  // ----- Writing -----

  function Line(key: string, value: string): string {
    key + "=" + value
  }

  function Header(stamp: string): seq<string> {
    ["# Device Discovery Validated Configuration"] + ["# Generated at: " + stamp] + [""]
  }

  function WrittenServices(s: Settings, stamp: string): seq<string> {
    Header(stamp)
    + [Line("OBM_SVC", s.obmSvc)]
    + [Line("OBS_SVC", s.obsSvc)]
    + [Line("OBM_PORT", Itoa(s.obmPort))]
    + [Line("KEYCLOAK_URL", s.keycloakURL)]
  }

  function WrittenDevice(s: Settings, stamp: string): seq<string> {
    WrittenServices(s, stamp)
    + [Line("MAC", s.macAddr)]
    + [Line("SERIAL", s.serialNumber)]
    + [Line("UUID", s.uuid)]
    + [Line("IP", s.ipAddress)]
  }

  function WrittenPaths(s: Settings, stamp: string): seq<string> {
    WrittenDevice(s, stamp)
    + [Line("CA_CERT", s.caCertPath)]
    + (if s.extraHosts != "" then [Line("EXTRA_HOSTS", s.extraHosts)] else [])
  }

  function Written(s: Settings, stamp: string, format: int -> string): seq<string> {
    WrittenPaths(s, stamp)
    + [Line("DEBUG", FormatBool(s.debug))]
    + [Line("DISABLE_INTERACTIVE", FormatBool(s.disableInteractiveMode))]
    + (if s.debug then [Line("TIMEOUT", format(s.timeout))] else [])
  }

  /** Every line followed by a newline. */
  function Unlines(lines: seq<string>): string {
    if lines == [] then "" else Unlines(lines[..|lines| - 1]) + lines[|lines| - 1] + "\n"
  }

  // ----- What a line means -----

  lemma UnwrittenKeys(s: Settings, value: string, parse: Durations)
    ensures ParseBool(value).Some? ==>
              Apply(s, "AUTO_DETECT", value, parse) == Some(s.(autoDetect := ParseBool(value).value))
    ensures ParseBool(value).Some? ==>
              Apply(s, "USE_KERNEL_ARGS", value, parse) == Some(s.(useKernelArgs := ParseBool(value).value))
  {
    assert FieldOf("AUTO_DETECT") == AutoDetect && FieldOf("USE_KERNEL_ARGS") == UseKernelArgs;
    hide FieldOf, Atoi, ParseBool;
  }

  /** Quotes of either kind around a value are removed, and white space between them stays. */
  lemma QuotesAreRemoved(value: string, quote: char)
    requires quote == '"' || quote == '\''
    requires value == "" || (value[0] !in "\"'" && value[|value| - 1] !in "\"'")
    ensures Normal([quote] + value + [quote]) == value
  {
    var quoted := [quote] + value + [quote];
    TrimFixesExactlyBare(quoted, IsSpace);
    assert quoted[1..] == value + [quote];
    assert TrimStart(quoted, IsQuote) == TrimStart(value + [quote], IsQuote);
    if value == "" {
      assert value + [quote] == [quote] && [quote][1..] == "";
      assert TrimStart([quote], IsQuote) == TrimStart("", IsQuote);
    } else {
      assert [quote][..0] == "" && TrimEnd([quote], IsQuote) == TrimEnd("", IsQuote);
      TrimEndConcat(value, [quote], IsQuote);
      assert value + "" == value;
    }
  }

  predicate IsFlagKey(key: string) {
    key == "DEBUG" || key == "AUTO_DETECT" || key == "DISABLE_INTERACTIVE" || key == "USE_KERNEL_ARGS"
  }

  lemma FlagKeysAreFlags(key: string)
    ensures IsFlag(FieldOf(key)) <==> IsFlagKey(key)
  {
  }

  lemma NumberKeys(key: string)
    ensures FieldOf(key) == ObmPort <==> key == "OBM_PORT"
    ensures FieldOf(key) == Timeout <==> key == "TIMEOUT"
  {
  }

  /** Seven values can fail to parse; every other key takes any text. */
  lemma FailsExactly(s: Settings, key: string, value: string, parse: Durations)
    ensures Apply(s, key, value, parse).None? <==>
              || (IsFlagKey(key) && ParseBool(value).None?)
              || (key == "OBM_PORT" && Atoi(value).None?)
              || (key == "TIMEOUT" && parse(value).None?)
  {
    FlagKeysAreFlags(key);
    NumberKeys(key);
    hide FieldOf, IsFlagKey, ParseBool, Atoi;
  }

  predicate IsTextKey(key: string) {
    || key == "OBM_SVC" || key == "OBS_SVC" || key == "KEYCLOAK_URL" || key == "EXTRA_HOSTS" || key == "CA_CERT"
    || key == "MAC" || key == "SERIAL" || key == "UUID" || key == "IP"
  }

  /** Keys the agent does not know, in other letter cases for example, change nothing. */
  lemma UnknownKeysAreIgnored(s: Settings, key: string, value: string, parse: Durations)
    requires !IsTextKey(key) && !IsFlagKey(key) && key != "OBM_PORT" && key != "TIMEOUT"
    ensures Apply(s, key, value, parse) == Some(s)
  {
    assert FieldOf(key) == Unknown;
    hide FieldOf, IsFlagKey, IsTextKey, ParseBool, Atoi;
  }

  predicate IsSkipped(text: string) {
    (forall c :: c in text ==> IsSpace(c)) || HasPrefix(TrimStart(text, IsSpace), "#")
  }

  /** Whether a line is skipped can be told without trimming it. */
  lemma SkippedLines(text: string)
    ensures IsSkipped(text) <==> TrimSpace(text) == "" || HasPrefix(TrimSpace(text), "#")
    ensures '=' in TrimSpace(text) <==> '=' in text
  {
    var start := TrimStart(text, IsSpace);
    var lead := TrimStartCuts(text, IsSpace);
    var trail := TrimEndCuts(start, IsSpace);
    assert text == lead + TrimSpace(text) + trail;
    TrimStartLength(text, IsSpace);
    TrimEndLength(start, IsSpace);
    if start != "" {
      assert start[0] in text && start[0] !in trail;
    }
  }

  /** Which lines are in error: without an equals sign, neither blank nor comments. Errors change nothing. */
  lemma LineErrors(s: Settings, text: string, number: nat, parse: Durations)
    ensures IsSkipped(text) ==> LoadLine(s, text, number, parse) == (s, None)
    ensures LoadLine(s, text, number, parse).1 == Some(InvalidFormat(number)) <==> !IsSkipped(text) && '=' !in text
    ensures LoadLine(s, text, number, parse).1.Some? ==>
              && LoadLine(s, text, number, parse).0 == s
              && LoadLine(s, text, number, parse).1.value in {InvalidFormat(number), InvalidValue(number)}
  {
    SkippedLines(text);
    CutIsConcat(TrimSpace(text), '=');
    hide TrimSpace, IsSkipped, Normal, Apply, Cut;
  }

  /** The error reported is that of the first line that has one, by its number; what was read before it stays. */
  lemma FirstErrorIsNumbered(base: Settings, lines: seq<string>, parse: Durations, n: nat)
    requires n < |lines|
    ensures
      var (before, error) := LoadLines(base, lines[..n], parse);
      var next := LoadLine(before, lines[n], n + 1, parse);
      error.None? && next.1.Some? ==> LoadLines(base, lines, parse) == next
  {
    hide LoadLine;
    assert lines[..n + 1][..n] == lines[..n];
    if LoadLines(base, lines[..n + 1], parse).1.Some? {
      ErrorStays(base, lines, n + 1, parse);
    }
  }

  // ----- The round trip -----

  lemma {:induction false} SplitOfUnlines(lines: seq<string>, rest: string)
    requires forall i :: 0 <= i < |lines| ==> '\n' !in lines[i]
    ensures Split(Unlines(lines) + rest, '\n') == lines + Split(rest, '\n')
  {
    if lines == [] {
      assert Unlines(lines) + rest == rest;
    } else {
      var init, last := lines[..|lines| - 1], lines[|lines| - 1];
      assert Unlines(lines) + rest == Unlines(init) + (last + ['\n'] + rest);
      SplitOfUnlines(init, last + ['\n'] + rest);
      SplitFirst(last, rest, '\n');
    }
  }

  /** The scanner finds the lines that were written. */
  lemma ScanOfUnlines(lines: seq<string>)
    requires forall i :: 0 <= i < |lines| ==> '\n' !in lines[i]
    ensures ScanLines(Unlines(lines)) == lines
  {
    SplitOfUnlines(lines, "");
    assert Unlines(lines) + "" == Unlines(lines);
  }

  /** Capital letters and underscores. */
  predicate IsKey(key: string) {
    key != "" && forall i :: 0 <= i < |key| ==> 'A' <= key[i] <= 'Z' || key[i] == '_'
  }

  /** A written line is read as its key with the normal form of its value. */
  lemma LoadWritten(s: Settings, key: string, value: string, number: nat, parse: Durations)
    requires IsKey(key)
    ensures LoadLine(s, Line(key, value), number, parse)
         == match Apply(s, key, Normal(value), parse)
            case None => (s, Some(InvalidValue(number)))
            case Some(s') => (s', None)
  {
    var line, start := Line(key, value), key + "=";
    assert line[0] == key[0] && start + value == line;
    TrimEndConcat(start, value, IsSpace);
    assert TrimSpace(line) == key + ['='] + TrimEnd(value, IsSpace);
    CutAtFirst(key, TrimEnd(value, IsSpace), '=');
    TrimOfTrimEnd(value, IsSpace);
    TrimFixesExactlyBare(key, IsSpace);
  }

  /** Loading lines and one more written line. */
  lemma LoadOneMore(base: Settings, lines: seq<string>, s: Settings, key: string, value: string, s': Settings,
                    parse: Durations)
    requires LoadLines(base, lines, parse) == (s, None)
    requires IsKey(key) && Apply(s, key, Normal(value), parse) == Some(s')
    ensures LoadLines(base, lines + [Line(key, value)], parse) == (s', None)
  {
    assert (lines + [Line(key, value)])[..|lines|] == lines;
    LoadWritten(s, key, value, |lines| + 1, parse);
  }

  lemma LoadHeader(base: Settings, stamp: string, parse: Durations)
    ensures LoadLines(base, Header(stamp), parse) == (base, None)
  {
    var lines := Header(stamp);
    CommentIsSkipped(base, lines[0], 1, parse);
    CommentIsSkipped(base, lines[1], 2, parse);
    assert lines[..1] == [lines[0]] && lines[..2] == [lines[0], lines[1]];
    assert lines[..1][..0] == [] && lines[..2][..1] == lines[..1] && lines[..3][..2] == lines[..2] && lines == lines[..3];
    assert LoadLines(base, lines[..1], parse) == (base, None);
    assert LoadLines(base, lines[..2], parse) == (base, None);
  }

  lemma CommentIsSkipped(s: Settings, line: string, number: nat, parse: Durations)
    requires "# " <= line && |line| > 2 && !IsSpace(line[2])
    ensures LoadLine(s, line, number, parse) == (s, None)
  {
    TrimEndConcat("#", line[1..], IsSpace);
    assert line == "#" + line[1..];
  }

  /** What reading the file leaves in the settings it is read into. */
  function Restored(base: Settings, s: Settings): Settings {
    base.(obmSvc := Normal(s.obmSvc), obsSvc := Normal(s.obsSvc), obmPort := s.obmPort,
          keycloakURL := Normal(s.keycloakURL), macAddr := Normal(s.macAddr),
          serialNumber := Normal(s.serialNumber), uuid := Normal(s.uuid), ipAddress := Normal(s.ipAddress),
          caCertPath := Normal(s.caCertPath),
          extraHosts := if s.extraHosts != "" then Normal(s.extraHosts) else base.extraHosts,
          debug := s.debug, disableInteractiveMode := s.disableInteractiveMode,
          timeout := if s.debug then s.timeout else base.timeout)
  }

  predicate OnOneLine(s: Settings) {
    && '\n' !in s.obmSvc && '\n' !in s.obsSvc && '\n' !in s.keycloakURL && '\n' !in s.macAddr
    && '\n' !in s.serialNumber && '\n' !in s.uuid && '\n' !in s.ipAddress && '\n' !in s.caCertPath
    && '\n' !in s.extraHosts
  }

  predicate FitsScanner(lines: seq<string>) {
    forall i :: 0 <= i < |lines| ==> |lines[i]| <= MAX_LINE
  }

  /** Neither white space nor quotes at its ends: the values the reader returns as they are. */
  predicate Plain(value: string) {
    Bare(value, IsSpace) && Bare(value, IsQuote)
  }

  /** Exactly the plain values survive. */
  lemma NormalKeepsExactlyPlain(value: string)
    ensures Normal(value) == value <==> Plain(value)
  {
    TrimFixesExactlyBare(value, IsSpace);
    TrimFixesExactlyBare(TrimSpace(value), IsQuote);
    TrimStartLength(value, IsSpace);
    TrimEndLength(TrimStart(value, IsSpace), IsSpace);
    TrimStartLength(TrimSpace(value), IsQuote);
    TrimEndLength(TrimStart(TrimSpace(value), IsQuote), IsQuote);
  }

  /** Durations print as plain one-line text that parses back. */
  ghost predicate Inverse(format: int -> string, parse: Durations) {
    forall d :: IsInt64(d) ==> parse(format(d)) == Some(d) && Plain(format(d)) && '\n' !in format(d)
  }

  /** Go's int and time.Duration. */
  predicate InRange(s: Settings) {
    IsInt64(s.obmPort) && IsInt64(s.timeout)
  }

  lemma IntIsPlain(n: int)
    ensures Plain(Itoa(n)) && '\n' !in Itoa(n)
  {
    ItoaCharacters(n);
    var s := Itoa(n);
    assert s[0] in s && s[|s| - 1] in s;
  }

  lemma BoolIsPlain(b: bool)
    ensures Normal(FormatBool(b)) == FormatBool(b) && ParseBool(FormatBool(b)) == Some(b)
  {
  }

  lemma ServiceNames()
    ensures FieldOf("OBM_SVC") == ObmSvc && FieldOf("OBS_SVC") == ObsSvc
    ensures FieldOf("OBM_PORT") == ObmPort && FieldOf("KEYCLOAK_URL") == KeycloakUrl
  {
  }

  lemma DeviceNames()
    ensures FieldOf("MAC") == Mac && FieldOf("SERIAL") == Serial && FieldOf("UUID") == Uuid && FieldOf("IP") == Ip
  {
  }

  lemma PathNames()
    ensures FieldOf("CA_CERT") == CaCert && FieldOf("EXTRA_HOSTS") == ExtraHosts
  {
  }

  lemma FlagNames()
    ensures FieldOf("DEBUG") == Debug && FieldOf("DISABLE_INTERACTIVE") == DisableInteractive
    ensures FieldOf("TIMEOUT") == Timeout
  {
  }

  lemma ServiceKeys(s: Settings, value: string, parse: Durations)
    ensures Apply(s, "OBM_SVC", value, parse) == Some(s.(obmSvc := value))
    ensures Apply(s, "OBS_SVC", value, parse) == Some(s.(obsSvc := value))
    ensures Atoi(value).Some? ==> Apply(s, "OBM_PORT", value, parse) == Some(s.(obmPort := Atoi(value).value))
    ensures Apply(s, "KEYCLOAK_URL", value, parse) == Some(s.(keycloakURL := value))
  {
    ServiceNames();
    hide FieldOf, Atoi, ParseBool;
  }

  lemma DeviceKeys(s: Settings, value: string, parse: Durations)
    ensures Apply(s, "MAC", value, parse) == Some(s.(macAddr := value))
    ensures Apply(s, "SERIAL", value, parse) == Some(s.(serialNumber := value))
    ensures Apply(s, "UUID", value, parse) == Some(s.(uuid := value))
    ensures Apply(s, "IP", value, parse) == Some(s.(ipAddress := value))
  {
    DeviceNames();
    hide FieldOf, Atoi, ParseBool;
  }

  lemma PathKeys(s: Settings, value: string, parse: Durations)
    ensures Apply(s, "CA_CERT", value, parse) == Some(s.(caCertPath := value))
    ensures Apply(s, "EXTRA_HOSTS", value, parse) == Some(s.(extraHosts := value))
  {
    PathNames();
    hide FieldOf, Atoi, ParseBool;
  }

  lemma FlagKeys(s: Settings, value: string, parse: Durations)
    ensures ParseBool(value).Some? ==> Apply(s, "DEBUG", value, parse) == Some(s.(debug := ParseBool(value).value))
    ensures ParseBool(value).Some? ==>
              Apply(s, "DISABLE_INTERACTIVE", value, parse) == Some(s.(disableInteractiveMode := ParseBool(value).value))
    ensures parse(value).Some? ==> Apply(s, "TIMEOUT", value, parse) == Some(s.(timeout := parse(value).value))
  {
    FlagNames();
    hide FieldOf, Atoi, ParseBool;
  }

  lemma LoadServices(base: Settings, s: Settings, stamp: string, parse: Durations)
    requires InRange(s)
    ensures LoadLines(base, WrittenServices(s, stamp), parse)
         == (base.(obmSvc := Normal(s.obmSvc), obsSvc := Normal(s.obsSvc), obmPort := s.obmPort,
                   keycloakURL := Normal(s.keycloakURL)), None)
  {
    hide LoadLines, Normal, Atoi, Itoa, Plain, Apply, Line, Header;
    var port := Itoa(s.obmPort);
    IntIsPlain(s.obmPort);
    NormalKeepsExactlyPlain(port);
    ItoaRoundTrip(s.obmPort);
    LoadHeader(base, stamp, parse);
    var l0 := Header(stamp);
    ServiceKeys(base, Normal(s.obmSvc), parse);
    var s1 := base.(obmSvc := Normal(s.obmSvc));
    LoadOneMore(base, l0, base, "OBM_SVC", s.obmSvc, s1, parse);
    var l1 := l0 + [Line("OBM_SVC", s.obmSvc)];
    ServiceKeys(s1, Normal(s.obsSvc), parse);
    var s2 := s1.(obsSvc := Normal(s.obsSvc));
    LoadOneMore(base, l1, s1, "OBS_SVC", s.obsSvc, s2, parse);
    var l2 := l1 + [Line("OBS_SVC", s.obsSvc)];
    ServiceKeys(s2, Normal(port), parse);
    var s3 := s2.(obmPort := s.obmPort);
    LoadOneMore(base, l2, s2, "OBM_PORT", port, s3, parse);
    var l3 := l2 + [Line("OBM_PORT", port)];
    ServiceKeys(s3, Normal(s.keycloakURL), parse);
    LoadOneMore(base, l3, s3, "KEYCLOAK_URL", s.keycloakURL, s3.(keycloakURL := Normal(s.keycloakURL)), parse);
  }

  lemma LoadDevice(base: Settings, s: Settings, stamp: string, s0: Settings, parse: Durations)
    requires LoadLines(base, WrittenServices(s, stamp), parse) == (s0, None)
    ensures LoadLines(base, WrittenDevice(s, stamp), parse)
         == (s0.(macAddr := Normal(s.macAddr), serialNumber := Normal(s.serialNumber), uuid := Normal(s.uuid),
                 ipAddress := Normal(s.ipAddress)), None)
  {
    hide LoadLines, Normal, Apply, Line, WrittenServices;
    var l0 := WrittenServices(s, stamp);
    DeviceKeys(s0, Normal(s.macAddr), parse);
    var s1 := s0.(macAddr := Normal(s.macAddr));
    LoadOneMore(base, l0, s0, "MAC", s.macAddr, s1, parse);
    var l1 := l0 + [Line("MAC", s.macAddr)];
    DeviceKeys(s1, Normal(s.serialNumber), parse);
    var s2 := s1.(serialNumber := Normal(s.serialNumber));
    LoadOneMore(base, l1, s1, "SERIAL", s.serialNumber, s2, parse);
    var l2 := l1 + [Line("SERIAL", s.serialNumber)];
    DeviceKeys(s2, Normal(s.uuid), parse);
    var s3 := s2.(uuid := Normal(s.uuid));
    LoadOneMore(base, l2, s2, "UUID", s.uuid, s3, parse);
    var l3 := l2 + [Line("UUID", s.uuid)];
    DeviceKeys(s3, Normal(s.ipAddress), parse);
    LoadOneMore(base, l3, s3, "IP", s.ipAddress, s3.(ipAddress := Normal(s.ipAddress)), parse);
  }

  lemma LoadPaths(base: Settings, s: Settings, stamp: string, s0: Settings, parse: Durations)
    requires LoadLines(base, WrittenDevice(s, stamp), parse) == (s0, None)
    ensures LoadLines(base, WrittenPaths(s, stamp), parse)
         == (s0.(caCertPath := Normal(s.caCertPath),
                 extraHosts := if s.extraHosts != "" then Normal(s.extraHosts) else s0.extraHosts), None)
  {
    hide LoadLines, Normal, Apply, Line, WrittenDevice;
    var l0 := WrittenDevice(s, stamp);
    PathKeys(s0, Normal(s.caCertPath), parse);
    var s1 := s0.(caCertPath := Normal(s.caCertPath));
    LoadOneMore(base, l0, s0, "CA_CERT", s.caCertPath, s1, parse);
    var l1 := l0 + [Line("CA_CERT", s.caCertPath)];
    if s.extraHosts != "" {
      PathKeys(s1, Normal(s.extraHosts), parse);
      LoadOneMore(base, l1, s1, "EXTRA_HOSTS", s.extraHosts, s1.(extraHosts := Normal(s.extraHosts)), parse);
    } else {
      assert WrittenPaths(s, stamp) == l1;
    }
  }

  lemma LoadFlags(base: Settings, s: Settings, stamp: string, s0: Settings, format: int -> string, parse: Durations)
    requires InRange(s) && Inverse(format, parse)
    requires LoadLines(base, WrittenPaths(s, stamp), parse) == (s0, None)
    ensures LoadLines(base, Written(s, stamp, format), parse)
         == (s0.(debug := s.debug, disableInteractiveMode := s.disableInteractiveMode,
                 timeout := if s.debug then s.timeout else s0.timeout), None)
  {
    var timeout, debug, disable := format(s.timeout), FormatBool(s.debug), FormatBool(s.disableInteractiveMode);
    BoolIsPlain(s.debug);
    BoolIsPlain(s.disableInteractiveMode);
    NormalKeepsExactlyPlain(timeout);
    hide LoadLines, Normal, Apply, Line, Plain, FormatBool, WrittenPaths, ParseBool;
    var l0 := WrittenPaths(s, stamp);
    FlagKeys(s0, debug, parse);
    var s1 := s0.(debug := s.debug);
    LoadOneMore(base, l0, s0, "DEBUG", debug, s1, parse);
    var l1 := l0 + [Line("DEBUG", debug)];
    FlagKeys(s1, disable, parse);
    var s2 := s1.(disableInteractiveMode := s.disableInteractiveMode);
    LoadOneMore(base, l1, s1, "DISABLE_INTERACTIVE", disable, s2, parse);
    var l2 := l1 + [Line("DISABLE_INTERACTIVE", disable)];
    if s.debug {
      FlagKeys(s2, timeout, parse);
      LoadOneMore(base, l2, s2, "TIMEOUT", timeout, s2.(timeout := s.timeout), parse);
    } else {
      assert Written(s, stamp, format) == l2;
    }
  }

  /** Whatever the values, the lines written load to their normal forms. */
  lemma LoadOfWritten(base: Settings, s: Settings, stamp: string, format: int -> string, parse: Durations)
    requires InRange(s) && Inverse(format, parse)
    ensures LoadLines(base, Written(s, stamp, format), parse) == (Restored(base, s), None)
  {
    hide LoadLines, Normal, Written, WrittenPaths, WrittenDevice, WrittenServices;
    LoadServices(base, s, stamp, parse);
    var s0 := base.(obmSvc := Normal(s.obmSvc), obsSvc := Normal(s.obsSvc), obmPort := s.obmPort,
                    keycloakURL := Normal(s.keycloakURL));
    LoadDevice(base, s, stamp, s0, parse);
    var s1 := s0.(macAddr := Normal(s.macAddr), serialNumber := Normal(s.serialNumber), uuid := Normal(s.uuid),
                  ipAddress := Normal(s.ipAddress));
    LoadPaths(base, s, stamp, s1, parse);
    var s2 := s1.(caCertPath := Normal(s.caCertPath),
                  extraHosts := if s.extraHosts != "" then Normal(s.extraHosts) else s1.extraHosts);
    LoadFlags(base, s, stamp, s2, format, parse);
  }

  predicate OneLineEach(lines: seq<string>) {
    forall i :: 0 <= i < |lines| ==> '\n' !in lines[i]
  }

  lemma WrittenIsOneLineEach(s: Settings, stamp: string, format: int -> string, parse: Durations)
    requires OnOneLine(s) && '\n' !in stamp && InRange(s) && Inverse(format, parse)
    ensures OneLineEach(Written(s, stamp, format))
  {
    ServicesAreOneLineEach(s, stamp);
    hide WrittenServices, Itoa, Plain;
    assert OneLineEach(WrittenDevice(s, stamp));
    hide WrittenDevice;
    assert OneLineEach(WrittenPaths(s, stamp));
    hide WrittenPaths;
  }

  lemma OneMoreLine(lines: seq<string>, key: string, value: string)
    requires OneLineEach(lines) && IsKey(key) && '\n' !in value
    ensures OneLineEach(lines + [Line(key, value)])
  {
  }

  lemma ServicesAreOneLineEach(s: Settings, stamp: string)
    requires OnOneLine(s) && '\n' !in stamp
    ensures OneLineEach(WrittenServices(s, stamp))
  {
    IntIsPlain(s.obmPort);
    assert OneLineEach(Header(stamp));
    hide Itoa, Plain, Line, OneLineEach, Header;
    var l0 := Header(stamp);
    OneMoreLine(l0, "OBM_SVC", s.obmSvc);
    var l1 := l0 + [Line("OBM_SVC", s.obmSvc)];
    OneMoreLine(l1, "OBS_SVC", s.obsSvc);
    var l2 := l1 + [Line("OBS_SVC", s.obsSvc)];
    OneMoreLine(l2, "OBM_PORT", Itoa(s.obmPort));
    var l3 := l2 + [Line("OBM_PORT", Itoa(s.obmPort))];
    OneMoreLine(l3, "KEYCLOAK_URL", s.keycloakURL);
  }

  lemma {:induction false} DeliveredIsPrefix(lines: seq<string>)
    ensures Delivered(lines) <= lines
    ensures Delivered(lines) == lines <==> FitsScanner(lines)
  {
    if lines != [] {
      DeliveredIsPrefix(lines[..|lines| - 1]);
    }
  }

  lemma {:induction false} PrefixesLoad(base: Settings, lines: seq<string>, n: nat, parse: Durations)
    requires n <= |lines| && LoadLines(base, lines, parse).1.None?
    ensures LoadLines(base, lines[..n], parse).1.None?
    decreases |lines|
  {
    hide LoadLine;
    if n < |lines| {
      PrefixesLoad(base, lines[..|lines| - 1], n, parse);
      assert lines[..|lines| - 1][..n] == lines[..n];
    } else {
      assert lines[..n] == lines;
    }
  }

  /**
   Reading back what was written: every written value comes back in its normal form, whatever
   else it contains, unless a line does not fit the scanner, which is then reported.
   */
  lemma RoundTrip(base: Settings, s: Settings, stamp: string, format: int -> string, parse: Durations)
    requires OnOneLine(s) && '\n' !in stamp && InRange(s) && Inverse(format, parse)
    ensures
      var lines := Written(s, stamp, format);
      var (loaded, error) := Load(base, Unlines(lines), parse);
      if FitsScanner(lines) then loaded == Restored(base, s) && error.None? else error == Some(LineTooLong)
  {
    var lines := Written(s, stamp, format);
    LoadOfWritten(base, s, stamp, format, parse);
    WrittenIsOneLineEach(s, stamp, format, parse);
    hide Written, Restored, LoadLines, Delivered, FitsScanner, Unlines, ScanLines;
    ScanOfUnlines(lines);
    DeliveredIsPrefix(lines);
    PrefixesLoad(base, lines, |Delivered(lines)|, parse);
    assert lines[..|Delivered(lines)|] == Delivered(lines);
  }

  const ZERO := Settings("", "", 0, "", "", "", "", "", "", "", false, 0, false, false, false)

  /** The fields that the file carries. */
  function Persisted(s: Settings): Settings {
    s.(timeout := if s.debug then s.timeout else 0, autoDetect := false, useKernelArgs := false)
  }

  predicate AllPlain(s: Settings) {
    && Plain(s.obmSvc) && Plain(s.obsSvc) && Plain(s.keycloakURL) && Plain(s.macAddr) && Plain(s.serialNumber)
    && Plain(s.uuid) && Plain(s.ipAddress) && Plain(s.caCertPath) && Plain(s.extraHosts)
  }

  /** A fresh reader gets back exactly what was written if and only if all text values are plain. */
  lemma RestoresExactlyPlain(s: Settings)
    ensures Restored(ZERO, s) == Persisted(s) <==> AllPlain(s)
  {
    NormalKeepsExactlyPlain(s.obmSvc);
    NormalKeepsExactlyPlain(s.obsSvc);
    NormalKeepsExactlyPlain(s.keycloakURL);
    NormalKeepsExactlyPlain(s.macAddr);
    NormalKeepsExactlyPlain(s.serialNumber);
    NormalKeepsExactlyPlain(s.uuid);
    NormalKeepsExactlyPlain(s.ipAddress);
    NormalKeepsExactlyPlain(s.caCertPath);
    NormalKeepsExactlyPlain(s.extraHosts);
    assert Plain("");
    hide Plain, Normal;
  }

  /** A value once read back survives another round exactly when the quotes removed had no white space inside. */
  lemma NormalIsStableExactly(value: string)
    ensures Normal(Normal(value)) == Normal(value) <==> Bare(Normal(value), IsSpace)
  {
    NormalKeepsExactlyPlain(Normal(value));
    TrimFixesExactlyBare(TrimSpace(value), IsQuote);
  }

  // ----- The code -----

  class Config {
    var obmSvc: string
    var obsSvc: string
    var obmPort: int
    var keycloakURL: string
    var macAddr: string
    var serialNumber: string
    var uuid: string
    var ipAddress: string
    var extraHosts: string
    var caCertPath: string
    var debug: bool
    var timeout: int
    var disableInteractiveMode: bool
    var autoDetect: bool
    var useKernelArgs: bool

    function View(): Settings
      reads this
    {
      Settings(obmSvc, obsSvc, obmPort, keycloakURL, macAddr, serialNumber, uuid, ipAddress, extraHosts, caCertPath,
               debug, timeout, disableInteractiveMode, autoDetect, useKernelArgs)
    }

    constructor ()
      ensures View() == ZERO
    {
      obmSvc, obsSvc, obmPort, keycloakURL := "", "", 0, "";
      macAddr, serialNumber, uuid, ipAddress := "", "", "", "";
      extraHosts, caCertPath, debug, timeout := "", "", false, 0;
      disableInteractiveMode, autoDetect, useKernelArgs := false, false, false;
    }

    /** A value that does not parse is an error and changes nothing. */
    method ApplyValue(key: string, value: string, parse: Durations) returns (ok: bool)
      modifies this
      ensures match Apply(old(View()), key, value, parse)
              case None => !ok && View() == old(View())
              case Some(applied) => ok && View() == applied
    {
      hide FieldOf, Atoi, ParseBool;
      var field := FieldOf(key);
      if IsFlag(field) {
        var flag := ParseBool(value);
        if flag.None? {
          return false;
        }
        SetFlag(field, flag.value);
      } else if field == ObmPort {
        var port := Atoi(value);
        if port.None? {
          return false;
        }
        obmPort := port.value;
      } else if field == Timeout {
        var duration := parse(value);
        if duration.None? {
          return false;
        }
        timeout := duration.value;
      } else {
        SetText(field, value);
      }
      return true;
    }

    /** The switch cases that assign the text as it is. */
    method SetText(field: Field, value: string)
      requires !IsFlag(field) && field != ObmPort && field != Timeout
      modifies this
      ensures View() == WithText(old(View()), field, value)
    {
      if IsDeviceText(field) {
        SetDeviceText(field, value);
      } else {
        match field
        case ObmSvc => obmSvc := value;
        case ObsSvc => obsSvc := value;
        case KeycloakUrl => keycloakURL := value;
        case ExtraHosts => extraHosts := value;
        case CaCert => caCertPath := value;
        case _ =>
      }
    }

    method SetDeviceText(field: Field, value: string)
      requires IsDeviceText(field)
      modifies this
      ensures View() == WithText(old(View()), field, value)
    {
      match field
      case Mac => macAddr := value;
      case Serial => serialNumber := value;
      case Uuid => uuid := value;
      case Ip => ipAddress := value;
    }

    /** The switch cases that assign a boolean. */
    method SetFlag(field: Field, flag: bool)
      requires IsFlag(field)
      modifies this
      ensures View() == WithFlag(old(View()), field, flag)
    {
      match field
      case Debug => debug := flag;
      case AutoDetect => autoDetect := flag;
      case DisableInteractive => disableInteractiveMode := flag;
      case UseKernelArgs => useKernelArgs := flag;
    }

    /** The scanner loop; None for the contents of a file that cannot be opened. */
    method LoadFromFile(contents: Option<string>, parse: Durations) returns (error: Option<Error>)
      modifies this
      ensures contents.None? ==> error == Some(CannotOpen) && View() == old(View())
      ensures contents.Some? ==> (View(), error) == Load(old(View()), contents.value, parse)
    {
      hide Apply, ScanLines, TrimSpace, Normal, Cut;
      if contents.None? {
        return Some(CannotOpen);
      }
      var lines := ScanLines(contents.value);
      ghost var base := View();
      var lineNum := 0;
      while lineNum < |lines| && |lines[lineNum]| <= MAX_LINE
        invariant 0 <= lineNum <= |lines|
        invariant Delivered(lines[..lineNum]) == lines[..lineNum]
        invariant LoadLines(base, lines[..lineNum], parse) == (View(), None)
      {
        lineNum := lineNum + 1;
        assert lines[..lineNum][..lineNum - 1] == lines[..lineNum - 1];
        var line := TrimSpace(lines[lineNum - 1]);
        if line == "" || HasPrefix(line, "#") {
          continue;
        }
        var parts := Cut(line, '=');
        if parts.None? {
          FirstErrorIsFinal(base, lines, lineNum, parse);
          return Some(InvalidFormat(lineNum));
        }
        var ok := ApplyValue(TrimSpace(parts.value.0), Normal(parts.value.1), parse);
        if !ok {
          FirstErrorIsFinal(base, lines, lineNum, parse);
          return Some(InvalidValue(lineNum));
        }
      }
      assert lines[..|lines|] == lines;
      DeliveredStops(lines, lineNum);
      return if lineNum < |lines| then Some(LineTooLong) else None;
    }

    /** The writes to the new file, in order. */
    method WriteToFile(stamp: string, format: int -> string) returns (file: string)
      ensures file == Unlines(Written(View(), stamp, format))
    {
      hide Unlines, Itoa, FormatBool, Line;
      ghost var lines: seq<string> := [];
      file := "";
      NothingWritten();
      file, lines := Print(file, "# Device Discovery Validated Configuration", lines);
      file, lines := Print(file, "# Generated at: " + stamp, lines);
      file, lines := Print(file, "", lines);
      assert lines == Header(stamp);
      file, lines := Print(file, Line("OBM_SVC", obmSvc), lines);
      file, lines := Print(file, Line("OBS_SVC", obsSvc), lines);
      file, lines := Print(file, Line("OBM_PORT", Itoa(obmPort)), lines);
      file, lines := Print(file, Line("KEYCLOAK_URL", keycloakURL), lines);
      assert lines == WrittenServices(View(), stamp);
      file, lines := Print(file, Line("MAC", macAddr), lines);
      file, lines := Print(file, Line("SERIAL", serialNumber), lines);
      file, lines := Print(file, Line("UUID", uuid), lines);
      file, lines := Print(file, Line("IP", ipAddress), lines);
      assert lines == WrittenDevice(View(), stamp);
      file, lines := Print(file, Line("CA_CERT", caCertPath), lines);
      if extraHosts != "" {
        file, lines := Print(file, Line("EXTRA_HOSTS", extraHosts), lines);
      }
      file, lines := Print(file, Line("DEBUG", FormatBool(debug)), lines);
      file, lines := Print(file, Line("DISABLE_INTERACTIVE", FormatBool(disableInteractiveMode)), lines);
      if debug {
        file, lines := Print(file, Line("TIMEOUT", format(timeout)), lines);
      }
      assert lines == Written(View(), stamp, format);
    }

    /** One Fprintf: a line and its newline at the end of the file. */
    static method Print(file: string, line: string, ghost lines: seq<string>)
      returns (file': string, ghost lines': seq<string>)
      requires file == Unlines(lines)
      ensures lines' == lines + [line] && file' == Unlines(lines + [line])
    {
      assert (lines + [line])[..|lines|] == lines;
      file', lines' := file + line + "\n", lines + [line];
    }
  }

  lemma NothingWritten()
    ensures Unlines([]) == ""
  {
  }

  /** The scanner stops for good at the first line that does not fit. */
  lemma {:induction false} DeliveredStops(lines: seq<string>, n: nat)
    requires n <= |lines| && Delivered(lines[..n]) == lines[..n]
    requires n < |lines| ==> |lines[n]| > MAX_LINE
    ensures Delivered(lines) == lines[..n]
    decreases |lines|
  {
    if n < |lines| {
      var init := lines[..|lines| - 1];
      assert init[..n] == lines[..n];
      DeliveredStops(init, n);
    } else {
      assert lines[..n] == lines;
    }
  }

  /** Nothing after the first line with an error is read. */
  lemma FirstErrorIsFinal(base: Settings, lines: seq<string>, n: nat, parse: Durations)
    requires n <= |lines| && Delivered(lines[..n]) == lines[..n] && LoadLines(base, lines[..n], parse).1.Some?
    ensures LoadLines(base, Delivered(lines), parse) == LoadLines(base, lines[..n], parse)
  {
    DeliveredGrows(lines, n);
    DeliveredIsPrefix(lines);
    var delivered := Delivered(lines);
    assert delivered[..n] == lines[..n];
    ErrorStays(base, delivered, n, parse);
  }

  lemma {:induction false} DeliveredGrows(lines: seq<string>, n: nat)
    requires n <= |lines|
    ensures Delivered(lines[..n]) <= Delivered(lines)
    decreases |lines|
  {
    if n < |lines| {
      var init := lines[..|lines| - 1];
      assert init[..n] == lines[..n];
      DeliveredGrows(init, n);
      DeliveredIsPrefix(init);
    } else {
      assert lines[..n] == lines;
    }
  }

  lemma {:induction false} ErrorStays(base: Settings, lines: seq<string>, n: nat, parse: Durations)
    requires n <= |lines| && LoadLines(base, lines[..n], parse).1.Some?
    ensures LoadLines(base, lines, parse) == LoadLines(base, lines[..n], parse)
    decreases |lines|
  {
    hide LoadLine;
    if n < |lines| {
      var init := lines[..|lines| - 1];
      assert init[..n] == lines[..n];
      ErrorStays(base, init, n, parse);
    } else {
      assert lines[..n] == lines;
    }
  }
}
