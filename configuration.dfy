/** The `.env` configuration loader of src/utils.py: lines of `KEY=VALUE`, comments starting
    with `#`, the environment overriding keys that the file defines. */
module Configuration {
  import opened Wrappers
  import opened Text

  /** The entry a stripped line contributes: the text before the first `=` and the text
      after it, each stripped, unless the line is empty, a comment, or has no `=`. */
  function ParseStripped(s: string): Option<(string, string)>
  {
    if s != [] && s[0] != '#' && '=' in s then
      var i := Find(s, '=');
      Some((Strip(s[..i]), Strip(s[i + 1..])))
    else
      None
  }

  /** The entry one line of the file contributes, if any: the text before the first `=`
      and the text after it, each stripped, when the stripped line is neither empty nor a
      comment and contains `=`. */
  function ParseLine(line: string): (r: Option<(string, string)>)
    ensures r.Some? <==> var s := Strip(line); s != [] && s[0] != '#' && '=' in s
  {
    ParseStripped(Strip(line))
  }

  /** A parsed key has no `=` in it, and key and value are stripped. */
  lemma ParsedEntryShape(line: string)
    requires ParseLine(line).Some?
    ensures IsStripped(ParseLine(line).value.0) && IsStripped(ParseLine(line).value.1)
    ensures '=' !in ParseLine(line).value.0
  {
    var s := Strip(line);
    var i := Find(s, '=');
    var key := Strip(s[..i]);
    forall k | 0 <= k < |key| ensures key[k] != '=' {
      StripChars(s[..i], k);
    }
  }

  lemma FindFirst(line: string, i: nat)
    requires i < |line| && line[i] == '=' && forall k :: 0 <= k < i ==> line[k] != '='
    ensures Find(line, '=') == i
  {
  }

  /** A stripped line that is no comment and has its first `=` at index `i`. */
  lemma ParseAtFirstEquals(line: string, i: nat)
    requires IsStripped(line) && line != [] && line[0] != '#'
    requires i < |line| && line[i] == '=' && Find(line, '=') == i
    ensures ParseLine(line) == Some((Strip(line[..i]), Strip(line[i + 1..])))
  {
    StripOfStripped(line);
    assert Strip(line) == line;
  }

  /** A stripped line with a first `=` at index `i` and no leading `#`: the entry is the
      stripped text on either side of that `=`. */
  lemma ParseSplitLine(line: string, i: nat, key: string, value: string)
    requires IsStripped(line) && line != [] && line[0] != '#'
    requires i < |line| && line[i] == '=' && forall k :: 0 <= k < i ==> line[k] != '='
    requires line[..i] == key && line[i + 1..] == value && IsStripped(key) && IsStripped(value)
    ensures ParseLine(line) == Some((key, value))
  {
    FindFirst(line, i);
    ParseAtFirstEquals(line, i);
    StripOfStripped(key);
    StripOfStripped(value);
  }

  /** Writing `key=value` and reading it back gives the entry back, when the key is a
      stripped, `=`-free text that does not start a comment and the value is stripped. */
  lemma {:induction false} ParseRenderedLine(key: string, value: string)
    requires IsStripped(key) && IsStripped(value) && '=' !in key
    requires key == [] || key[0] != '#'
    ensures ParseLine(key + "=" + value) == Some((key, value))
  {
    var line := key + "=" + value;
    assert line[|key|] == '=';
    assert line[0] == if key == [] then '=' else key[0];
    assert line[|line| - 1] == if value == [] then '=' else value[|value| - 1];
    assert forall k :: 0 <= k < |key| ==> line[k] == key[k];
    assert line[..|key|] == key;
    assert line[|key| + 1..] == value;
    ParseSplitLine(line, |key|, key, value);
  }

  type Entry = Option<(string, string)>

  /** The dictionary a sequence of parsed entries builds, later entries overwriting earlier
      ones; every value it holds was written by an entry for that key. */
  function Assemble(entries: seq<Entry>): (config: map<string, string>)
    ensures forall k :: k in config ==> Some((k, config[k])) in entries
  {
    if entries == [] then map[]
    else
      var init := entries[..|entries| - 1];
      var m := Assemble(init);
      var e := entries[|entries| - 1];
      assert entries == init + [e];
      if e.Some? then m[e.value.0 := e.value.1] else m
  }

  /** Extending the entries by one updates the dictionary by that entry alone. */
  lemma AssembleStep(entries: seq<Entry>, i: nat)
    requires i < |entries|
    ensures Assemble(entries[..i + 1]) ==
      if entries[i].Some? then Assemble(entries[..i])[entries[i].value.0 := entries[i].value.1]
      else Assemble(entries[..i])
  {
    assert entries[..i + 1][..i] == entries[..i];
  }

  function Entries(lines: seq<string>): (entries: seq<Entry>)
    ensures |entries| == |lines|
    ensures forall i :: 0 <= i < |lines| ==> entries[i] == ParseLine(lines[i])
  {
    seq(|lines|, i requires 0 <= i < |lines| => ParseLine(lines[i]))
  }

  /** The dictionary the file's lines build: each key and value comes from one line, both
      are stripped, and no key contains `=`. */
  function ParseLines(lines: seq<string>): (config: map<string, string>)
    ensures forall k :: k in config ==>
              && (exists i :: 0 <= i < |lines| && ParseLine(lines[i]) == Some((k, config[k])))
              && IsStripped(k) && IsStripped(config[k]) && '=' !in k
  {
    AssembledFromLines(lines);
    Assemble(Entries(lines))
  }

  /** Every pair the lines assemble comes from one parsed line. */
  lemma AssembledFromLines(lines: seq<string>)
    ensures var config := Assemble(Entries(lines));
            forall k :: k in config ==>
              && (exists i :: 0 <= i < |lines| && ParseLine(lines[i]) == Some((k, config[k])))
              && IsStripped(k) && IsStripped(config[k]) && '=' !in k
  {
    var config := Assemble(Entries(lines));
    forall k | k in config
      ensures exists i :: 0 <= i < |lines| && ParseLine(lines[i]) == Some((k, config[k]))
      ensures IsStripped(k) && IsStripped(config[k]) && '=' !in k
    {
      EntryOrigin(lines, k, config[k]);
    }
  }

  /** A pair the lines assemble comes from one parsed line, and so has parsed-entry shape. */
  lemma EntryOrigin(lines: seq<string>, k: string, v: string)
    requires Some((k, v)) in Entries(lines)
    ensures exists i :: 0 <= i < |lines| && ParseLine(lines[i]) == Some((k, v))
    ensures IsStripped(k) && IsStripped(v) && '=' !in k
  {
    var entries := Entries(lines);
    var i :| 0 <= i < |entries| && entries[i] == Some((k, v));
    assert ParseLine(lines[i]) == Some((k, v));
    ParsedEntryShape(lines[i]);
  }

  predicate Defines(entry: Entry, key: string)
  {
    entry.Some? && entry.value.0 == key
  }

  /** A key is configured exactly when some entry defines it. */
  lemma {:induction false} AssembledKeys(entries: seq<Entry>, key: string)
    ensures key in Assemble(entries) <==> exists i :: 0 <= i < |entries| && Defines(entries[i], key)
  {
    if entries != [] {
      var init := entries[..|entries| - 1];
      AssembledKeys(init, key);
      if exists i :: 0 <= i < |entries| && Defines(entries[i], key) {
        var i :| 0 <= i < |entries| && Defines(entries[i], key);
        if i < |entries| - 1 {
          assert init[i] == entries[i];
        }
      }
      if exists i :: 0 <= i < |init| && Defines(init[i], key) {
        var i :| 0 <= i < |init| && Defines(init[i], key);
        assert entries[i] == init[i];
      }
    }
  }

  /** The last entry that defines a key decides its value. */
  lemma {:induction false} LastEntryWins(entries: seq<Entry>, i: nat, key: string, value: string)
    requires i < |entries| && entries[i] == Some((key, value))
    requires forall j :: i < j < |entries| ==> !Defines(entries[j], key)
    ensures key in Assemble(entries) && Assemble(entries)[key] == value
  {
    if i < |entries| - 1 {
      var init := entries[..|entries| - 1];
      assert init[i] == entries[i];
      forall j | i < j < |init| ensures !Defines(init[j], key) {
        assert init[j] == entries[j];
      }
      LastEntryWins(init, i, key, value);
      assert !Defines(entries[|entries| - 1], key);
    }
  }

  /** A key is configured exactly when some line of the file defines it. */
  lemma ParsedKeys(lines: seq<string>, key: string)
    ensures key in ParseLines(lines) <==> exists i :: 0 <= i < |lines| && Defines(ParseLine(lines[i]), key)
  {
    var entries := Entries(lines);
    AssembledKeys(entries, key);
    assert forall i :: 0 <= i < |lines| ==> entries[i] == ParseLine(lines[i]);
  }

  /** The last line defining a key decides its value. */
  lemma LastLineWins(lines: seq<string>, i: nat, key: string, value: string)
    requires i < |lines| && ParseLine(lines[i]) == Some((key, value))
    requires forall j :: i < j < |lines| ==> !Defines(ParseLine(lines[j]), key)
    ensures key in ParseLines(lines) && ParseLines(lines)[key] == value
  {
    LastEntryWins(Entries(lines), i, key, value);
  }

  /** The file's lines, or none when the file does not exist. */
  function Lines(file: Option<seq<string>>): seq<string>
  {
    if file.Some? then file.value else []
  }

  /** An environment variable replaces a parsed value when it is set and non-empty. */
  function Effective(parsed: map<string, string>, env: map<string, string>, key: string): string
    requires key in parsed
  {
    if key in env && env[key] != "" then env[key] else parsed[key]
  }

  /** The entry of one line, as a method so that the loop in `ParseFile` sees only this
      contract rather than the parser's definition; it adds no behaviour of its own. */
  method ReadEntry(line: string) returns (entry: Option<(string, string)>)
    ensures entry == ParseLine(line)
  {
    entry := ParseLine(line);
  }

  /** The first loop of `Config._load_config`: one dictionary update per entry line. */
  method ParseFile(lines: seq<string>) returns (config: map<string, string>)
    ensures config == ParseLines(lines)
  {
    ghost var entries := Entries(lines);
    config := map[];
    var i := 0;
    while i < |lines|
      invariant 0 <= i <= |lines|
      invariant config == Assemble(entries[..i])
    {
      var entry := ReadEntry(lines[i]);
      assert entry == entries[i];
      AssembleStep(entries, i);
      if entry.Some? {
        config := config[entry.value.0 := entry.value.1];
      }
      i := i + 1;
    }
    assert entries[..i] == entries;
  }

  /** The second loop of `Config._load_config`: each parsed key takes its environment
      value when that is set and non-empty. */
  method ApplyEnvironment(parsed: map<string, string>, env: map<string, string>) returns (config: map<string, string>)
    ensures config.Keys == parsed.Keys
    ensures forall k :: k in config ==> config[k] == Effective(parsed, env, k)
  {
    config := parsed;
    var pending := config.Keys;
    while pending != {}
      invariant pending <= config.Keys
      invariant config.Keys == parsed.Keys
      invariant forall k :: k in config ==> config[k] == if k in pending then parsed[k] else Effective(parsed, env, k)
      decreases pending
    {
      var k :| k in pending;
      if k in env && env[k] != "" {
        config := config[k := env[k]];
      }
      pending := pending - {k};
    }
  }

  /** `Config._load_config`: parse the file (when it exists), then let the environment
      override the keys it defines. No key comes from the environment alone. */
  method LoadConfig(file: Option<seq<string>>, env: map<string, string>) returns (config: map<string, string>)
    ensures config.Keys == ParseLines(Lines(file)).Keys
    ensures forall k :: k in config ==> config[k] == Effective(ParseLines(Lines(file)), env, k)
  {
    var parsed := ParseFile(Lines(file));
    config := ApplyEnvironment(parsed, env);
  }

  /** The `Config` object: a dictionary loaded once and then read and written by key. */
  class Config {
    var config: map<string, string>

    constructor (file: Option<seq<string>>, env: map<string, string>)
      ensures config.Keys == ParseLines(Lines(file)).Keys
      ensures forall k :: k in config ==> config[k] == Effective(ParseLines(Lines(file)), env, k)
    {
      var loaded := LoadConfig(file, env);
      config := loaded;
    }

    /** `Config.get(key, default)`. */
    function Get(key: string, default: Option<string>): (r: Option<string>)
      reads this
      ensures key in config ==> r == Some(config[key])
      ensures key !in config ==> r == default
    {
      if key in config then Some(config[key]) else default
    }

    /** `Config.set(key, value)`: that key now reads `value`, every other key reads as before. */
    method Set(key: string, value: string)
      modifies this
      ensures config == old(config)[key := value]
      ensures Get(key, None) == Some(value)
    {
      config := config[key := value];
    }
  }
}
