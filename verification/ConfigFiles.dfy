/**
 ConfigLoader.cpp: the INI reader, the settings it fills in, and the settings printer.
 */
module ConfigFiles {
  import opened Wrappers
  import opened Text

  type int32 = i: int | -0x8000_0000 <= i < 0x8000_0000
  type long = i: int | -0x8000_0000_0000_0000 <= i < 0x8000_0000_0000_0000

  type Entries = map<string, map<string, string>>

  datatype AeronSettings = AeronSettings(
    dir: string, controlRequest: string, controlResponse: string,
    publicationChannel: string, publicationStream: int32,
    subscriptionChannel: string, subscriptionStream: int32,
    replayChannel: string, replayStream: int32,
    idleSleepMs: long, messageTimeoutNs: long)

  /** The exceptions: the file cannot be opened, or the value of the named key is not a number in range. */
  datatype Result<+T> = Ok(value: T) | CannotOpen | BadNumber(key: string)

  // ----- parsing -----

  function Put(e: Entries, section: string, key: string, value: string): Entries {
    e[section := (if section in e then e[section] else map[])[key := value]]
  }

  function Get(e: Entries, section: string, key: string): Option<string> {
    if section in e && key in e[section] then Some(e[section][key]) else None
  }

  lemma GetPut(e: Entries, section: string, key: string, value: string, s: string, k: string)
    ensures Get(Put(e, section, key, value), s, k) == if s == section && k == key then Some(value) else Get(e, s, k)
  {
  }

  datatype Parser = Parser(section: string, entries: Entries)

  const START: Parser := Parser("", map[])

  /** What one line does: nothing, open a section, or set a key of the open section. */
  function OnLine(p: Parser, raw: string): Parser {
    var line := Trim(raw);
    if line == [] || line[0] == '#' || line[0] == ';' then p
    else if line[0] == '[' && line[|line| - 1] == ']' then p.(section := Trim(line[1..|line| - 1]))
    else
      var equals := IndexOf(line, '=');
      if equals == |line| || p.section == [] then p
      else p.(entries := Put(p.entries, p.section, Trim(line[..equals]), Trim(line[equals + 1..])))
  }

  function OnLines(p: Parser, lines: seq<string>): Parser
    decreases |lines|
  {
    if lines == [] then p else OnLines(OnLine(p, lines[0]), lines[1..])
  }

  /** The whole file's meaning: its lines taken in order. */
  method ParseINI(file: Option<string>) returns (result: Result<Entries>)
    ensures result == if file.None? then CannotOpen else Ok(OnLines(START, Lines(file.value)).entries)
  {
    hide Lines, OnLines, Put, Trim, IndexOf;
    if file.None? {
      return CannotOpen;
    }
    var rest := file.value;
    var entries: Entries := map[];
    var currentSection := "";
    while rest != []
      invariant OnLines(Parser(currentSection, entries), Lines(rest)) == OnLines(START, Lines(file.value))
      decreases |rest|
    {
      ghost var p := Parser(currentSection, entries);
      NextLine(p, rest);
      var end := IndexOf(rest, '\n');
      var raw := rest[..end];
      var line := Trim(raw);
      rest := if end < |rest| then rest[end + 1..] else [];
      if line == [] || line[0] == '#' || line[0] == ';' {
        continue;
      }
      if line[0] == '[' && line[|line| - 1] == ']' {
        currentSection := line[1..|line| - 1];
        currentSection := Trim(currentSection);
        continue;
      }
      var equals := IndexOf(line, '=');
      if equals == |line| {
        continue;
      }
      var key := Trim(line[..equals]);
      var value := Trim(line[equals + 1..]);
      if currentSection == [] {
        continue;
      }
      PutInPlace(entries, currentSection, key, value);
      if currentSection !in entries {
        entries := entries[currentSection := map[]];
      }
      entries := entries[currentSection := entries[currentSection][key := value]];
    }
    NoLines(Parser(currentSection, entries));
    return Ok(entries);
  }

  lemma NextLine(p: Parser, text: string)
    requires text != []
    ensures var end := IndexOf(text, '\n');
            OnLines(p, Lines(text))
            == OnLines(OnLine(p, text[..end]), Lines(if end < |text| then text[end + 1..] else []))
  {
    hide OnLine;
    assert Lines(text)[0] == text[..IndexOf(text, '\n')];
  }

  lemma NoLines(p: Parser)
    ensures OnLines(p, Lines([])) == p
  {
  }

  lemma PutInPlace(e: Entries, section: string, key: string, value: string)
    ensures var present := if section in e then e else e[section := map[]];
            present[section := present[section][key := value]] == Put(e, section, key, value)
  {
  }

  // ----- settings -----

  function StringOr(e: Entries, section: string, key: string, default: string): string {
    var found := Get(e, section, key);
    if found.None? then default else found.value
  }

  /** stoi and stoll: the number the value starts with, if it has one and that fits. */
  function NumberOr(e: Entries, section: string, key: string, default: int, low: int, high: int): Option<int> {
    var found := Get(e, section, key);
    if found.None? then Some(default)
    else
      var number := ReadInt(found.value);
      if number.None? || number.value < low || number.value >= high then None else number
  }

  function Int32Or(e: Entries, section: string, default: int32): (n: Option<int>)
    ensures n.Some? ==> -0x8000_0000 <= n.value < 0x8000_0000
  {
    NumberOr(e, section, "stream_id", default, -0x8000_0000, 0x8000_0000)
  }

  function LongOr(e: Entries, key: string, default: long): (n: Option<int>)
    ensures n.Some? ==> -0x8000_0000_0000_0000 <= n.value < 0x8000_0000_0000_0000
  {
    NumberOr(e, "timeouts", key, default, -0x8000_0000_0000_0000, 0x8000_0000_0000_0000)
  }

  /** The settings a parsed file stands for: each key it has replaces the default, the first bad number ends it. */
  function Apply(d: AeronSettings, e: Entries): Result<AeronSettings> {
    var publication := Int32Or(e, "publication", d.publicationStream);
    var subscription := Int32Or(e, "subscription", d.subscriptionStream);
    var replay := Int32Or(e, "replay", d.replayStream);
    var idle := LongOr(e, "idle_sleep_ms", d.idleSleepMs);
    var timeout := LongOr(e, "message_timeout_ns", d.messageTimeoutNs);
    if publication.None? then BadNumber("publication" + "." + "stream_id")
    else if subscription.None? then BadNumber("subscription" + "." + "stream_id")
    else if replay.None? then BadNumber("replay" + "." + "stream_id")
    else if idle.None? then BadNumber("timeouts" + "." + "idle_sleep_ms")
    else if timeout.None? then BadNumber("timeouts" + "." + "message_timeout_ns")
    else Ok(AeronSettings(
        StringOr(e, "aeron", "dir", d.dir),
        StringOr(e, "archive", "control_request_channel", d.controlRequest),
        StringOr(e, "archive", "control_response_channel", d.controlResponse),
        StringOr(e, "publication", "channel", d.publicationChannel), publication.value,
        StringOr(e, "subscription", "channel", d.subscriptionChannel), subscription.value,
        StringOr(e, "replay", "channel", d.replayChannel), replay.value,
        idle.value, timeout.value))
  }

  /** A text field after loading: the file's value where the file has the key, the default's where it has not. */
  ghost predicate TextDecided(e: Entries, section: string, key: string, default: string, text: string) {
    if section in e && key in e[section] then text == e[section][key] else text == default
  }

  ghost predicate NumberDecided(e: Entries, section: string, key: string, default: int, n: int) {
    if section in e && key in e[section] then ReadInt(e[section][key]) == Some(n) else n == default
  }

  /** The file has the key, and its value does not start with a number or starts with one out of range. */
  ghost predicate BadAt(e: Entries, section: string, key: string, low: int, high: int) {
    && section in e && key in e[section]
    && var n := ReadInt(e[section][key]);
       n.None? || n.value < low || n.value > high
  }

  ghost predicate BadStream(e: Entries, section: string) {
    BadAt(e, section, "stream_id", -2147483648, 2147483647)
  }

  ghost predicate BadTimeout(e: Entries, key: string) {
    BadAt(e, "timeouts", key, -9223372036854775808, 9223372036854775807)
  }

  lemma Decides(e: Entries, section: string, key: string, default: int, low: int, high: int)
    ensures NumberOr(e, section, key, default, low, high + 1).None? <==> BadAt(e, section, key, low, high)
    ensures !BadAt(e, section, key, low, high)
            ==> NumberDecided(e, section, key, default, NumberOr(e, section, key, default, low, high + 1).value)
  {
    hide ReadInt;
  }

  lemma StreamDecides(e: Entries, section: string, default: int32)
    ensures Int32Or(e, section, default).None? <==> BadStream(e, section)
    ensures !BadStream(e, section) ==> NumberDecided(e, section, "stream_id", default, Int32Or(e, section, default).value)
  {
    hide ReadInt, BadAt, NumberDecided, NumberOr;
    Decides(e, section, "stream_id", default, -2147483648, 2147483647);
  }

  lemma TimeoutDecides(e: Entries, key: string, default: long)
    ensures LongOr(e, key, default).None? <==> BadTimeout(e, key)
    ensures !BadTimeout(e, key) ==> NumberDecided(e, "timeouts", key, default, LongOr(e, key, default).value)
  {
    hide ReadInt, BadAt, NumberDecided, NumberOr;
    Decides(e, "timeouts", key, default, -9223372036854775808, 9223372036854775807);
  }

  lemma NumbersDecide(d: AeronSettings, e: Entries)
    ensures BadStream(e, "publication") ==> Apply(d, e) == BadNumber("publication" + "." + "stream_id")
    ensures !BadStream(e, "publication") && BadStream(e, "subscription")
            ==> Apply(d, e) == BadNumber("subscription" + "." + "stream_id")
    ensures !BadStream(e, "publication") && !BadStream(e, "subscription") && BadStream(e, "replay")
            ==> Apply(d, e) == BadNumber("replay" + "." + "stream_id")
    ensures !BadStream(e, "publication") && !BadStream(e, "subscription") && !BadStream(e, "replay") && BadTimeout(e, "idle_sleep_ms")
            ==> Apply(d, e) == BadNumber("timeouts" + "." + "idle_sleep_ms")
    ensures !BadStream(e, "publication") && !BadStream(e, "subscription") && !BadStream(e, "replay")
            && !BadTimeout(e, "idle_sleep_ms") && BadTimeout(e, "message_timeout_ns")
            ==> Apply(d, e) == BadNumber("timeouts" + "." + "message_timeout_ns")
    ensures Apply(d, e).Ok?
            <==> !BadStream(e, "publication") && !BadStream(e, "subscription") && !BadStream(e, "replay")
                 && !BadTimeout(e, "idle_sleep_ms") && !BadTimeout(e, "message_timeout_ns")
  {
    hide Int32Or, LongOr, StringOr, BadStream, BadTimeout, NumberDecided;
    StreamDecides(e, "publication", d.publicationStream);
    StreamDecides(e, "subscription", d.subscriptionStream);
    StreamDecides(e, "replay", d.replayStream);
    TimeoutDecides(e, "idle_sleep_ms", d.idleSleepMs);
    TimeoutDecides(e, "message_timeout_ns", d.messageTimeoutNs);
  }

  /**
   Which key decides which field: a key the file lacks leaves its field as the default has it, a key it
   has decides that field alone, and loading fails exactly when one of the five numbers is bad.
   */
  lemma {:induction false} KeysDecide(d: AeronSettings, e: Entries)
    ensures Apply(d, e).Ok?
            <==> !BadStream(e, "publication") && !BadStream(e, "subscription") && !BadStream(e, "replay")
                 && !BadTimeout(e, "idle_sleep_ms") && !BadTimeout(e, "message_timeout_ns")
    ensures Apply(d, e).Ok?
            ==> var s := Apply(d, e).value;
                && TextDecided(e, "aeron", "dir", d.dir, s.dir)
                && TextDecided(e, "archive", "control_request_channel", d.controlRequest, s.controlRequest)
                && TextDecided(e, "archive", "control_response_channel", d.controlResponse, s.controlResponse)
                && TextDecided(e, "publication", "channel", d.publicationChannel, s.publicationChannel)
                && NumberDecided(e, "publication", "stream_id", d.publicationStream, s.publicationStream)
                && TextDecided(e, "subscription", "channel", d.subscriptionChannel, s.subscriptionChannel)
                && NumberDecided(e, "subscription", "stream_id", d.subscriptionStream, s.subscriptionStream)
                && TextDecided(e, "replay", "channel", d.replayChannel, s.replayChannel)
                && NumberDecided(e, "replay", "stream_id", d.replayStream, s.replayStream)
                && NumberDecided(e, "timeouts", "idle_sleep_ms", d.idleSleepMs, s.idleSleepMs)
                && NumberDecided(e, "timeouts", "message_timeout_ns", d.messageTimeoutNs, s.messageTimeoutNs)
  {
    hide Int32Or, LongOr, StringOr, BadStream, BadTimeout, NumberDecided, TextDecided;
    NumbersDecide(d, e);
    StreamDecides(e, "publication", d.publicationStream);
    StreamDecides(e, "subscription", d.subscriptionStream);
    StreamDecides(e, "replay", d.replayStream);
    TimeoutDecides(e, "idle_sleep_ms", d.idleSleepMs);
    TimeoutDecides(e, "message_timeout_ns", d.messageTimeoutNs);
    TextDecides(e, "aeron", "dir", d.dir);
    TextDecides(e, "archive", "control_request_channel", d.controlRequest);
    TextDecides(e, "archive", "control_response_channel", d.controlResponse);
    TextDecides(e, "publication", "channel", d.publicationChannel);
    TextDecides(e, "subscription", "channel", d.subscriptionChannel);
    TextDecides(e, "replay", "channel", d.replayChannel);
  }

  lemma TextDecides(e: Entries, section: string, key: string, default: string)
    ensures TextDecided(e, section, key, default, StringOr(e, section, key, default))
  {
  }

  /** An empty file changes nothing. */
  lemma EmptyFile(d: AeronSettings)
    ensures Apply(d, OnLines(START, Lines("")).entries) == Ok(d)
  {
    hide Apply, Int32Or, LongOr, StringOr, ReadInt;
    var e: Entries := map[];
    assert OnLines(START, Lines("")).entries == e;
    KeysDecide(d, e);
  }

  method TextField(data: Entries, section: string, key: string, current: string) returns (text: string)
    ensures text == StringOr(data, section, key, current)
  {
    text := current;
    if section in data {
      var fields := data[section];
      if key in fields {
        text := fields[key];
      }
    }
  }

  /** A key present is parsed, and its failure reported under the section's and the key's name. */
  method NumberField(data: Entries, section: string, key: string, current: int, low: int, high: int)
    returns (n: Result<int>)
    requires low <= current < high
    ensures var v := NumberOr(data, section, key, current, low, high);
            n == (if v.None? then BadNumber(section + "." + key) else Ok(v.value))
    ensures n.Ok? ==> low <= n.value < high
  {
    n := Ok(current);
    if section in data {
      var fields := data[section];
      if key in fields {
        var v := ReadInt(fields[key]);
        if v.None? || v.value < low || v.value >= high {
          return BadNumber(section + "." + key);
        }
        n := Ok(v.value);
      }
    }
  }

  method StreamField(data: Entries, section: string, current: int32) returns (n: Result<int32>)
    ensures var v := Int32Or(data, section, current);
            n == if v.None? then BadNumber(section + "." + "stream_id") else Ok(v.value)
  {
    var r := NumberField(data, section, "stream_id", current, -0x8000_0000, 0x8000_0000);
    return if r.Ok? then Ok(r.value) else BadNumber(section + "." + "stream_id");
  }

  method TimeoutField(data: Entries, key: string, current: long) returns (n: Result<long>)
    ensures var v := LongOr(data, key, current);
            n == if v.None? then BadNumber("timeouts" + "." + key) else Ok(v.value)
  {
    var r := NumberField(data, "timeouts", key, current, -0x8000_0000_0000_0000, 0x8000_0000_0000_0000);
    return if r.Ok? then Ok(r.value) else BadNumber("timeouts" + "." + key);
  }

  /** Loading up to the environment overrides and the validation. */
  method LoadFromFile(file: Option<string>, defaults: AeronSettings) returns (result: Result<AeronSettings>)
    ensures result == if file.None? then CannotOpen else Apply(defaults, OnLines(START, Lines(file.value)).entries)
  {
    hide OnLines, Lines, Int32Or, LongOr, StringOr;
    var ini := ParseINI(file);
    if ini.CannotOpen? {
      return CannotOpen;
    }
    var data := ini.value;
    var dir := TextField(data, "aeron", "dir", defaults.dir);
    var request := TextField(data, "archive", "control_request_channel", defaults.controlRequest);
    var response := TextField(data, "archive", "control_response_channel", defaults.controlResponse);
    var publication := TextField(data, "publication", "channel", defaults.publicationChannel);
    var publicationStream := StreamField(data, "publication", defaults.publicationStream);
    if publicationStream.BadNumber? {
      return BadNumber(publicationStream.key);
    }
    var subscription := TextField(data, "subscription", "channel", defaults.subscriptionChannel);
    var subscriptionStream := StreamField(data, "subscription", defaults.subscriptionStream);
    if subscriptionStream.BadNumber? {
      return BadNumber(subscriptionStream.key);
    }
    var replay := TextField(data, "replay", "channel", defaults.replayChannel);
    var replayStream := StreamField(data, "replay", defaults.replayStream);
    if replayStream.BadNumber? {
      return BadNumber(replayStream.key);
    }
    var idle := TimeoutField(data, "idle_sleep_ms", defaults.idleSleepMs);
    if idle.BadNumber? {
      return BadNumber(idle.key);
    }
    var timeout := TimeoutField(data, "message_timeout_ns", defaults.messageTimeoutNs);
    if timeout.BadNumber? {
      return BadNumber(timeout.key);
    }
    return Ok(AeronSettings(dir, request, response, publication, publicationStream.value,
                            subscription, subscriptionStream.value, replay, replayStream.value,
                            idle.value, timeout.value));
  }

  // ----- printing -----

  datatype Pair = Pair(key: string, value: string)

  datatype Section = Section(name: string, pairs: seq<Pair>)

  function Rule(n: nat): (s: string)
    ensures |s| == n && forall i | 0 <= i < n :: s[i] == '='
  {
    seq(n, _ => '=')
  }

  const BANNER_WIDTH: nat := 40

  function PairLine(p: Pair): string {
    "  " + p.key + " = " + p.value
  }

  function PairLines(pairs: seq<Pair>): seq<string> {
    if pairs == [] then [] else [PairLine(pairs[0])] + PairLines(pairs[1..])
  }

  /** A blank line stands before every section but the first. */
  function SectionLines(sections: seq<Section>): seq<string> {
    if sections == [] then []
    else
      var s := sections[0];
      ["[" + s.name + "]"] + PairLines(s.pairs) + (if |sections| > 1 then [""] else []) + SectionLines(sections[1..])
  }

  function Sections(s: AeronSettings): seq<Section> {
    [Section("aeron", [Pair("dir", s.dir)]),
     Section("archive", [Pair("control_request_channel", s.controlRequest),
                         Pair("control_response_channel", s.controlResponse)]),
     Section("publication", [Pair("channel", s.publicationChannel), Pair("stream_id", ShowInt(s.publicationStream))]),
     Section("subscription", [Pair("channel", s.subscriptionChannel), Pair("stream_id", ShowInt(s.subscriptionStream))]),
     Section("replay", [Pair("channel", s.replayChannel), Pair("stream_id", ShowInt(s.replayStream))]),
     Section("timeouts", [Pair("idle_sleep_ms", ShowInt(s.idleSleepMs)),
                          Pair("message_timeout_ns", ShowInt(s.messageTimeoutNs))])]
  }

  function PrintedLines(s: AeronSettings): seq<string> {
    [Rule(BANNER_WIDTH), "Aeron Configuration", Rule(BANNER_WIDTH)] + SectionLines(Sections(s)) + [Rule(BANNER_WIDTH)]
  }

  function Print(s: AeronSettings): string {
    Unlines(PrintedLines(s))
  }

  // ----- print, then parse -----

  predicate PlainText(s: string) {
    IsTrimmed(s) && '\n' !in s
  }

  predicate PlainKey(k: string) {
    PlainText(k) && k != [] && k[0] != '#' && k[0] != ';' && k[0] != '[' && '=' !in k
  }

  predicate PlainSection(s: Section) {
    && PlainText(s.name) && s.name != []
    && forall p | p in s.pairs :: PlainKey(p.key) && PlainText(p.value)
  }

  lemma {:induction false} OnLinesConcat(p: Parser, a: seq<string>, b: seq<string>)
    ensures OnLines(p, a + b) == OnLines(OnLines(p, a), b)
    decreases |a|
  {
    hide OnLine;
    if a == [] {
      assert a + b == b;
    } else {
      assert (a + b)[1..] == a[1..] + b;
      OnLinesConcat(OnLine(p, a[0]), a[1..], b);
    }
  }

  lemma OnPairLine(p: Parser, pair: Pair)
    requires PlainKey(pair.key) && PlainText(pair.value) && p.section != []
    ensures OnLine(p, PairLine(pair)) == p.(entries := Put(p.entries, p.section, pair.key, pair.value))
  {
    hide Trim, IndexOf, Put;
    var key, value := pair.key, pair.value;
    var line := key + " =" + (if value == [] then [] else " " + value);
    TrimAway("  ", line, if value == [] then " " else "");
    assert PairLine(pair) == "  " + line + if value == [] then " " else "";
    assert line == (key + " ") + ['='] + if value == [] then [] else " " + value;
    IndexOfFirst(key + " ", '=', if value == [] then [] else " " + value);
    var equals := |key| + 1;
    assert line[..equals] == [] + key + " ";
    TrimAway([], key, " ");
    assert line[equals + 1..] == (if value == [] then [] else " ") + value + [];
    TrimAway(if value == [] then [] else " ", value, []);
  }

  lemma OnSectionLine(p: Parser, name: string)
    requires PlainText(name)
    ensures OnLine(p, "[" + name + "]") == p.(section := name)
  {
    hide Trim;
    var line := "[" + name + "]";
    TrimAway([], line, []);
    assert line == [] + line + [];
    assert line[1..|line| - 1] == [] + name + [];
    TrimAway([], name, []);
  }

  /** A comment, and a line in brackets, which opens a section. */
  predicate IsComment(line: string) {
    line != [] && (line[0] == '#' || line[0] == ';')
  }

  predicate IsHeading(line: string) {
    line != [] && line[0] == '[' && line[|line| - 1] == ']'
  }

  /**
   Any other line with an equals sign sets a key of the open section: blanks may stand around the key,
   the sign and the value, either of which may be missing, and the value may hold the sign again.
   */
  lemma {:induction false} OnKeyLine(p: Parser, left: string, key: string, before: string, after: string, value: string, right: string)
    requires AllBlank(left) && AllBlank(before) && AllBlank(after) && AllBlank(right)
    requires IsTrimmed(key) && '=' !in key && IsTrimmed(value)
    requires (key == [] ==> before == []) && (value == [] ==> after == [])
    requires var line := key + before + "=" + after + value; !IsComment(line) && !IsHeading(line)
    ensures OnLine(p, left + (key + before + "=" + after + value) + right)
            == if p.section == [] then p else p.(entries := Put(p.entries, p.section, key, value))
  {
    hide Trim, IndexOf, Put;
    var line := key + before + "=" + after + value;
    assert line[0] == if key == [] then '=' else key[0];
    assert line[|line| - 1] == if value == [] then '=' else value[|value| - 1];
    TrimAway(left, line, right);
    assert line == (key + before) + ['='] + (after + value);
    assert '=' !in key + before by {
      BlankIsNotSign(before);
    }
    IndexOfFirst(key + before, '=', after + value);
    var equals := |key + before|;
    assert line[..equals] == [] + key + before;
    TrimAway([], key, before);
    assert line[equals + 1..] == after + value + [];
    TrimAway(after, value, []);
  }

  lemma BlankIsNotSign(s: string)
    requires AllBlank(s)
    ensures '=' !in s
  {
  }

  /** A section line may have blanks around and inside its brackets. */
  lemma {:induction false} OnHeading(p: Parser, left: string, before: string, name: string, after: string, right: string)
    requires AllBlank(left) && AllBlank(before) && AllBlank(after) && AllBlank(right) && IsTrimmed(name)
    ensures OnLine(p, left + ("[" + before + name + after + "]") + right) == p.(section := name)
  {
    hide Trim;
    var line := "[" + before + name + after + "]";
    TrimAway(left, line, right);
    assert line[1..|line| - 1] == before + name + after;
    TrimAway(before, name, after);
  }

  /** Comments, and lines that are no heading and hold no equals sign, blank ones among them, mean nothing. */
  lemma {:induction false} OnOtherLine(p: Parser, left: string, line: string, right: string)
    requires AllBlank(left) && AllBlank(right) && IsTrimmed(line)
    requires IsComment(line) || (!IsHeading(line) && '=' !in line)
    ensures OnLine(p, left + line + right) == p
  {
    hide Trim, IndexOf, Put;
    TrimAway(left, line, right);
  }

  lemma OnBlankLine(p: Parser)
    ensures OnLine(p, "") == p
  {
  }

  function PutAll(e: Entries, section: string, pairs: seq<Pair>): Entries
    decreases |pairs|
  {
    if pairs == [] then e else PutAll(Put(e, section, pairs[0].key, pairs[0].value), section, pairs[1..])
  }

  function PutSections(e: Entries, sections: seq<Section>): Entries
    decreases |sections|
  {
    if sections == [] then e else PutSections(PutAll(e, sections[0].name, sections[0].pairs), sections[1..])
  }

  lemma {:induction false} OnPairLines(p: Parser, pairs: seq<Pair>)
    requires p.section != [] && forall q | q in pairs :: PlainKey(q.key) && PlainText(q.value)
    ensures OnLines(p, PairLines(pairs)) == p.(entries := PutAll(p.entries, p.section, pairs))
    decreases |pairs|
  {
    hide OnLine, Put, PlainKey, PlainText, PairLine;
    if pairs != [] {
      OnPairLine(p, pairs[0]);
      OnPairLines(OnLine(p, PairLine(pairs[0])), pairs[1..]);
    }
  }

  /** Any printed sections parse back to their entries, whatever came before. */
  lemma {:induction false} OnSectionLines(p: Parser, sections: seq<Section>)
    requires forall s | s in sections :: PlainSection(s)
    ensures OnLines(p, SectionLines(sections)).entries == PutSections(p.entries, sections)
    ensures sections != [] ==> OnLines(p, SectionLines(sections)).section == sections[|sections| - 1].name
    decreases |sections|
  {
    hide OnLine, Put, PutAll;
    if sections != [] {
      var s := sections[0];
      assert s in sections && PlainSection(s);
      var blank := if |sections| > 1 then [""] else [];
      var p1 := OnLine(p, "[" + s.name + "]");
      OnSectionLine(p, s.name);
      OnPairLines(p1, s.pairs);
      var p2 := OnLines(p1, PairLines(s.pairs));
      OnBlankLine(p2);
      assert OnLines(p2, blank) == p2;
      OnLinesConcat(p, ["[" + s.name + "]"], PairLines(s.pairs));
      OnLinesConcat(p, ["[" + s.name + "]"] + PairLines(s.pairs), blank);
      OnLinesConcat(p, ["[" + s.name + "]"] + PairLines(s.pairs) + blank, SectionLines(sections[1..]));
      OnSectionLines(p2, sections[1..]);
    }
  }

  lemma OnBanner(p: Parser)
    ensures OnLine(p, Rule(BANNER_WIDTH))
            == if p.section == [] then p else p.(entries := Put(p.entries, p.section, "", Rule(BANNER_WIDTH - 1)))
  {
    hide Trim, Put, Rule;
    var banner, value := Rule(BANNER_WIDTH), Rule(BANNER_WIDTH - 1);
    TrimAway([], banner, []);
    assert banner == [] + banner + [];
    assert banner == [] + ['='] + value;
    IndexOfFirst([], '=', value);
    assert banner[..0] == [] + [] + [];
    TrimAway([], [], []);
    assert banner[1..] == [] + value + [];
    TrimAway([], value, []);
  }

  lemma OnTitle(p: Parser)
    ensures OnLine(p, "Aeron Configuration") == p
  {
    hide Trim, IndexOf;
    var title := "Aeron Configuration";
    TrimAway([], title, []);
    assert title == [] + title + [];
    assert '=' !in title;
    assert IndexOf(title, '=') == |title|;
  }

  lemma FrontMatter()
    ensures OnLines(START, [Rule(BANNER_WIDTH), "Aeron Configuration", Rule(BANNER_WIDTH)]) == START
  {
    hide OnLine, Rule;
    var front := [Rule(BANNER_WIDTH), "Aeron Configuration", Rule(BANNER_WIDTH)];
    OnBanner(START);
    OnTitle(START);
    assert front[1..][1..][1..] == [];
    assert OnLines(START, front[1..][1..]) == OnLines(START, front[1..][1..][1..]);
    assert OnLines(START, front[1..]) == OnLines(START, front[1..][1..]);
    assert OnLines(START, front) == OnLines(START, front[1..]);
  }

  /** What a printed settings file parses to, the banner's own key included. */
  lemma PrintedEntries(s: AeronSettings)
    requires forall x | x in Sections(s) :: PlainSection(x)
    ensures OnLines(START, PrintedLines(s)).entries
            == Put(PutSections(map[], Sections(s)), "timeouts", "", Rule(BANNER_WIDTH - 1))
  {
    hide OnLine, Put, PutSections, SectionLines;
    var sections := Sections(s);
    var front := [Rule(BANNER_WIDTH), "Aeron Configuration", Rule(BANNER_WIDTH)];
    FrontMatter();
    OnLinesConcat(START, front, SectionLines(sections));
    OnSectionLines(START, sections);
    var p := OnLines(START, front + SectionLines(sections));
    OnLinesConcat(START, front + SectionLines(sections), [Rule(BANNER_WIDTH)]);
    OnBanner(p);
    assert OnLines(p, [Rule(BANNER_WIDTH)]) == OnLine(p, Rule(BANNER_WIDTH));
  }

  /** The settings a line-based key-value file can carry. */
  predicate Printable(s: AeronSettings) {
    && PlainText(s.dir) && PlainText(s.controlRequest) && PlainText(s.controlResponse)
    && PlainText(s.publicationChannel) && PlainText(s.subscriptionChannel) && PlainText(s.replayChannel)
  }

  lemma ShortKeysPlain()
    ensures PlainKey("dir") && PlainKey("channel") && PlainKey("stream_id")
  {
  }

  lemma TimeoutKeysPlain()
    ensures PlainKey("idle_sleep_ms") && PlainKey("message_timeout_ns")
  {
  }

  lemma RequestKeyPlain()
    ensures PlainKey("control_request_channel")
  {
  }

  lemma ResponseKeyPlain()
    ensures PlainKey("control_response_channel")
  {
  }

  lemma NamesPlain()
    ensures PlainText("aeron") && PlainText("archive") && PlainText("publication") && PlainText("subscription")
    ensures PlainText("replay") && PlainText("timeouts")
  {
  }

  lemma TwoPairsPlain(name: string, p: Pair, q: Pair)
    requires PlainText(name) && name != []
    requires PlainKey(p.key) && PlainText(p.value) && PlainKey(q.key) && PlainText(q.value)
    ensures PlainSection(Section(name, [p, q]))
  {
  }

  lemma SectionsPlain(s: AeronSettings)
    requires Printable(s)
    ensures forall x | x in Sections(s) :: PlainSection(x)
  {
    hide PlainKey, PlainText, ShowInt, PlainSection;
    ShortKeysPlain();
    TimeoutKeysPlain();
    RequestKeyPlain();
    ResponseKeyPlain();
    NamesPlain();
    var all := Sections(s);
    NumbersPlain(s);
    OnePairPlain("aeron", Pair("dir", s.dir));
    TwoPairsPlain("archive", all[1].pairs[0], all[1].pairs[1]);
    TwoPairsPlain("publication", all[2].pairs[0], all[2].pairs[1]);
    TwoPairsPlain("subscription", all[3].pairs[0], all[3].pairs[1]);
    TwoPairsPlain("replay", all[4].pairs[0], all[4].pairs[1]);
    TwoPairsPlain("timeouts", all[5].pairs[0], all[5].pairs[1]);
  }

  lemma OnePairPlain(name: string, p: Pair)
    requires PlainText(name) && name != [] && PlainKey(p.key) && PlainText(p.value)
    ensures PlainSection(Section(name, [p]))
  {
  }

  lemma NumbersPlain(s: AeronSettings)
    ensures PlainText(ShowInt(s.publicationStream)) && PlainText(ShowInt(s.subscriptionStream))
    ensures PlainText(ShowInt(s.replayStream))
    ensures PlainText(ShowInt(s.idleSleepMs)) && PlainText(ShowInt(s.messageTimeoutNs))
  {
    hide ShowInt, IsTrimmed;
    ShownIsPlain(s.publicationStream);
    ShownIsPlain(s.subscriptionStream);
    ShownIsPlain(s.replayStream);
    ShownIsPlain(s.idleSleepMs);
    ShownIsPlain(s.messageTimeoutNs);
  }

  // ----- the round trip -----

  lemma GetPutAll(e: Entries, section: string, pairs: seq<Pair>, s: string, k: string)
    requires |pairs| <= 2
    ensures Get(PutAll(e, section, pairs), s, k)
            == if s == section && |pairs| >= 2 && k == pairs[1].key then Some(pairs[1].value)
               else if s == section && |pairs| >= 1 && k == pairs[0].key then Some(pairs[0].value)
               else Get(e, s, k)
  {
    hide Get, Put;
    if |pairs| >= 1 {
      var e1 := Put(e, section, pairs[0].key, pairs[0].value);
      GetPut(e, section, pairs[0].key, pairs[0].value, s, k);
      assert PutAll(e, section, pairs) == PutAll(e1, section, pairs[1..]);
      if |pairs| == 2 {
        GetPut(e1, section, pairs[1].key, pairs[1].value, s, k);
        assert pairs[1..][1..] == [];
      }
    }
  }

  /** The value of a key in a list of sections with different names. */
  lemma {:induction false} GetPutSections(e: Entries, sections: seq<Section>, i: nat, k: string)
    requires i < |sections| && forall j | 0 <= j < |sections| :: |sections[j].pairs| <= 2
    requires forall j | i < j < |sections| :: sections[j].name != sections[i].name
    ensures var x := sections[i];
            Get(PutSections(e, sections), x.name, k)
            == if |x.pairs| >= 2 && k == x.pairs[1].key then Some(x.pairs[1].value)
               else if |x.pairs| >= 1 && k == x.pairs[0].key then Some(x.pairs[0].value)
               else Get(PutSections(e, sections[..i]), x.name, k)
    decreases |sections| - i
  {
    hide Get, PutAll;
    var last := sections[|sections| - 1];
    var init := sections[..|sections| - 1];
    PutSectionsSnoc(e, init, last);
    assert init + [last] == sections;
    GetPutAll(PutSections(e, init), last.name, last.pairs, sections[i].name, k);
    if i < |sections| - 1 {
      GetPutSections(e, init, i, k);
      assert init[..i] == sections[..i];
    }
  }

  lemma {:induction false} PutSectionsSnoc(e: Entries, sections: seq<Section>, last: Section)
    ensures PutSections(e, sections + [last]) == PutAll(PutSections(e, sections), last.name, last.pairs)
    decreases |sections|
  {
    hide PutAll;
    if sections == [] {
      assert sections + [last] == [last] && [last][1..] == [];
    } else {
      var x := sections[0];
      assert (sections + [last])[1..] == sections[1..] + [last];
      PutSectionsSnoc(PutAll(e, x.name, x.pairs), sections[1..], last);
    }
  }

  lemma NamesDiffer(s: AeronSettings)
    ensures var all := Sections(s);
            |all| == 6 && (forall j | 0 <= j < 6 :: |all[j].pairs| <= 2)
            && forall i, j | 0 <= i < j < 6 :: all[i].name != all[j].name
  {
    hide ShowInt;
    var all := Sections(s);
    assert |all[0].name| == 5 && |all[1].name| == 7 && |all[2].name| == 11;
    assert |all[3].name| == 12 && |all[4].name| == 6 && |all[5].name| == 8;
  }

  /** The keys the loader asks for, as the printed file answers them. */
  lemma PrintedAnswers(s: AeronSettings, i: nat, k: string)
    requires Printable(s) && i < 6 && k != []
    ensures var x := Sections(s)[i];
            var e := OnLines(START, PrintedLines(s)).entries;
            && (|x.pairs| >= 2 && k == x.pairs[1].key ==> Get(e, x.name, k) == Some(x.pairs[1].value))
            && (|x.pairs| >= 1 && k == x.pairs[0].key && (|x.pairs| >= 2 ==> k != x.pairs[1].key)
                ==> Get(e, x.name, k) == Some(x.pairs[0].value))
  {
    hide Sections, OnLines, PrintedLines, PutSections, Get, Put, Printable, PlainSection, Rule;
    NamesDiffer(s);
    SectionsPlain(s);
    PrintedEntries(s);
    GetPutSections(map[], Sections(s), i, k);
    GetPut(PutSections(map[], Sections(s)), "timeouts", "", Rule(BANNER_WIDTH - 1), Sections(s)[i].name, k);
  }

  lemma NumberPrinted(e: Entries, section: string, key: string, default: int, low: int, high: int, n: int)
    requires Get(e, section, key) == Some(ShowInt(n)) && low <= n < high
    ensures NumberOr(e, section, key, default, low, high) == Some(n)
  {
    hide ReadInt, ShowInt;
    ReadShown(n);
  }

  /**
   The settings round trip: for all settings whose strings are trimmed and hold no newline, applying
   the printed text gives the same settings, whatever the defaults were.
   */
  lemma {:induction false} SettingsRoundTrip(s: AeronSettings, d: AeronSettings)
    requires Printable(s)
    ensures Apply(d, OnLines(START, Lines(Print(s))).entries) == Ok(s)
  {
    hide OnLines, PrintedLines, Get, Printable, ShowInt, NumberOr, Lines, Unlines;
    PrintedText(s);
    var e := OnLines(START, PrintedLines(s)).entries;
    PrintedAnswers(s, 0, "dir");
    PrintedAnswers(s, 1, "control_request_channel");
    PrintedAnswers(s, 1, "control_response_channel");
    PrintedAnswers(s, 2, "channel");
    PrintedAnswers(s, 2, "stream_id");
    PrintedAnswers(s, 3, "channel");
    PrintedAnswers(s, 3, "stream_id");
    PrintedAnswers(s, 4, "channel");
    PrintedAnswers(s, 4, "stream_id");
    PrintedAnswers(s, 5, "idle_sleep_ms");
    PrintedAnswers(s, 5, "message_timeout_ns");
    NumberPrinted(e, "publication", "stream_id", d.publicationStream, -0x8000_0000, 0x8000_0000, s.publicationStream);
    NumberPrinted(e, "subscription", "stream_id", d.subscriptionStream, -0x8000_0000, 0x8000_0000, s.subscriptionStream);
    NumberPrinted(e, "replay", "stream_id", d.replayStream, -0x8000_0000, 0x8000_0000, s.replayStream);
    NumberPrinted(e, "timeouts", "idle_sleep_ms", d.idleSleepMs, -0x8000_0000_0000_0000, 0x8000_0000_0000_0000, s.idleSleepMs);
    NumberPrinted(e, "timeouts", "message_timeout_ns", d.messageTimeoutNs, -0x8000_0000_0000_0000, 0x8000_0000_0000_0000,
                  s.messageTimeoutNs);
  }

  predicate OneLine(l: string) {
    '\n' !in l
  }

  lemma {:induction false} SectionLinesWhole(sections: seq<Section>)
    requires forall x | x in sections :: PlainSection(x)
    ensures forall l | l in SectionLines(sections) :: OneLine(l)
    decreases |sections|
  {
    if sections != [] {
      var x := sections[0];
      assert x in sections && PlainSection(x);
      PairLinesWhole(x.pairs);
      SectionLinesWhole(sections[1..]);
      hide PlainSection;
    }
  }

  lemma {:induction false} PairLinesWhole(pairs: seq<Pair>)
    requires forall p | p in pairs :: PlainKey(p.key) && PlainText(p.value)
    ensures forall l | l in PairLines(pairs) :: OneLine(l)
    decreases |pairs|
  {
    if pairs != [] {
      PairLinesWhole(pairs[1..]);
    }
  }

  lemma PrintedText(s: AeronSettings)
    requires Printable(s)
    ensures Lines(Print(s)) == PrintedLines(s)
  {
    hide SectionLines, Printable, PlainSection, Lines, Unlines, Sections;
    SectionsPlain(s);
    SectionLinesWhole(Sections(s));
    assert OneLine("Aeron Configuration") && OneLine(Rule(BANNER_WIDTH));
    forall l | l in PrintedLines(s)
      ensures OneLine(l)
    {
    }
    LinesUnlines(PrintedLines(s));
  }

  // ----- no other settings survive -----

  ghost predicate PlainValues(e: Entries) {
    forall section, key | section in e && key in e[section] :: PlainText(e[section][key])
  }

  lemma {:induction false} LinesWhole(text: string)
    ensures forall l | l in Lines(text) :: OneLine(l)
    decreases |text|
  {
    hide OneLine, IndexOf;
    if text != [] {
      var k := IndexOf(text, '\n');
      FrontIsOneLine(text);
      if k < |text| {
        LinesWhole(text[k + 1..]);
      }
    }
  }

  lemma FrontIsOneLine(text: string)
    ensures OneLine(text[..IndexOf(text, '\n')])
  {
  }

  lemma TrimPlain(s: string)
    requires '\n' !in s
    ensures PlainText(Trim(s))
  {
    var from, to := TrimSpec(s);
  }

  lemma OnLinePlain(p: Parser, raw: string)
    requires PlainValues(p.entries) && OneLine(raw)
    ensures PlainValues(OnLine(p, raw).entries)
  {
    hide Trim, PlainText;
    TrimPlain(raw);
    var line := Trim(raw);
    assert '\n' !in line by { NoNewline(line); }
    var equals := IndexOf(line, '=');
    if equals < |line| {
      TrimPlain(line[equals + 1..]);
    }
  }

  lemma NoNewline(s: string)
    requires PlainText(s)
    ensures '\n' !in s
  {
  }

  lemma {:induction false} OnLinesPlain(p: Parser, lines: seq<string>)
    requires PlainValues(p.entries) && forall l | l in lines :: OneLine(l)
    ensures PlainValues(OnLines(p, lines).entries)
    decreases |lines|
  {
    hide OnLine, PlainValues, OneLine;
    if lines != [] {
      OnLinePlain(p, lines[0]);
      OnLinesPlain(OnLine(p, lines[0]), lines[1..]);
    }
  }

  /** Whatever the file, a string that is not the default's was trimmed and of one line. */
  lemma AppliedStringsPlain(d: AeronSettings, text: string, s: AeronSettings)
    requires Apply(d, OnLines(START, Lines(text)).entries) == Ok(s)
    ensures (s.dir == d.dir || PlainText(s.dir))
            && (s.controlRequest == d.controlRequest || PlainText(s.controlRequest))
            && (s.controlResponse == d.controlResponse || PlainText(s.controlResponse))
            && (s.publicationChannel == d.publicationChannel || PlainText(s.publicationChannel))
            && (s.subscriptionChannel == d.subscriptionChannel || PlainText(s.subscriptionChannel))
            && (s.replayChannel == d.replayChannel || PlainText(s.replayChannel))
  {
    hide OnLines, Lines, PlainText, Int32Or, LongOr;
    LinesWhole(text);
    OnLinesPlain(START, Lines(text));
  }

  /** Settings whose every string differs from s's. */
  function Differing(s: AeronSettings): AeronSettings {
    s.(dir := s.dir + "x", controlRequest := s.controlRequest + "x", controlResponse := s.controlResponse + "x",
       publicationChannel := s.publicationChannel + "x", subscriptionChannel := s.subscriptionChannel + "x",
       replayChannel := s.replayChannel + "x")
  }

  lemma DifferingFails(s: AeronSettings)
    requires !Printable(s)
    ensures Apply(Differing(s), OnLines(START, Lines(Print(s))).entries) != Ok(s)
  {
    hide OnLines, Lines, Print, PlainText, Apply;
    var other := Differing(s);
    assert |other.dir| == |s.dir| + 1 && |other.controlRequest| == |s.controlRequest| + 1;
    assert |other.controlResponse| == |s.controlResponse| + 1 && |other.publicationChannel| == |s.publicationChannel| + 1;
    assert |other.subscriptionChannel| == |s.subscriptionChannel| + 1 && |other.replayChannel| == |s.replayChannel| + 1;
    if Apply(other, OnLines(START, Lines(Print(s))).entries) == Ok(s) {
      AppliedStringsPlain(other, Print(s), s);
    }
  }

  /** The round trip holds for all defaults exactly when the strings are trimmed and of one line. */
  lemma {:induction false} RoundTripIff(s: AeronSettings)
    ensures Printable(s) <==> forall d :: Apply(d, OnLines(START, Lines(Print(s))).entries) == Ok(s)
  {
    hide OnLines, Lines, Print, Printable, Apply, Differing;
    if Printable(s) {
      forall d
        ensures Apply(d, OnLines(START, Lines(Print(s))).entries) == Ok(s)
      {
        SettingsRoundTrip(s, d);
      }
    } else {
      DifferingFails(s);
    }
  }
}
